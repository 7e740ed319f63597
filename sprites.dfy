/** What out_sprite writes for a batch of destination pixels: the sprite tests, the
    flags handed to render_sprites, and the writes, in order. */
module SpriteBatches {
  import opened Axes
  import opened Statements
  import opened Lines
  import opened Emission
  import opened Semantics

  /** The statements that test for a sprite, render sprites, or replace a pending
      value with a sprite colour. */
  predicate IsOverlay(s: Stmt)
  {
    s.SpriteTest? || s.SpriteTestAt? || s.RenderShared? || s.RenderAt?
    || s.SetOutVal? || s.SetOutValN? || s.SetOutValSpcol?
  }

  /** A test of spritepixels for a destination pixel. */
  predicate IsSpriteTest(s: Stmt) { s.SpriteTest? || s.SpriteTestAt? }

  predicate NotPut(s: Stmt) { !IsPut(s) }

  /** A call of render_sprites says whether the playfields are dual and whether the
      chipset is AGA as the routine being generated has them. */
  predicate FlagsAgree(c: CMode, aga: bool, s: Stmt)
  {
    (s.RenderAt? || s.RenderShared?) ==> s.dualpf == (c == DualPF) && s.aga == aga
  }

  predicate AllAgree(c: CMode, aga: bool, xs: seq<Stmt>)
  {
    forall i :: 0 <= i < |xs| ==> FlagsAgree(c, aga, xs[i])
  }

  lemma AgreeAppend(c: CMode, aga: bool, a: seq<Stmt>, b: seq<Stmt>)
    requires AllAgree(c, aga, a) && AllAgree(c, aga, b)
    ensures AllAgree(c, aga, a + b)
  {
  }

  /** The batch sizes out_sprite handles: 1, 2 or 4 on AGA, any count otherwise. */
  predicate Handled(aga: bool, cnt: int)
  {
    if aga then cnt == 1 || cnt == 2 || cnt == 4 else cnt >= 0
  }

  /** The variable the i-th write of a batch takes: out_val1 .. out_val<cnt> for an AGA
      batch of more than one pixel, out_val otherwise. */
  function Slot(aga: bool, cnt: int, i: nat): string
  {
    if aga && cnt > 1 then "out_val" + Decimal(i + 1) else "out_val"
  }

  /** The sprite tests of a batch: one per pixel on AGA, one for the whole batch otherwise. */
  function Tests(aga: bool, cnt: int): seq<Stmt>
  {
    if aga && cnt > 1 then seq(cnt, (k: nat) => SpriteTestAt(k)) else [SpriteTest]
  }

  /** The facts every batch is built from: a check of one AGA pixel writes nothing,
      tests that pixel and hands render_sprites the routine's flags. */
  lemma CheckPuts(c: CMode, aga: bool, k: nat)
    ensures Select(AgaCheck(c, aga, k), IsPut) == [] && Every(AgaCheck(c, aga, k), NotPut)
  {
    SelectNone(AgaCheck(c, aga, k), IsPut);
  }

  lemma CheckTests(c: CMode, aga: bool, k: nat)
    ensures Select(AgaCheck(c, aga, k), IsSpriteTest) == [SpriteTestAt(k)]
  {
    SelectRange(AgaCheck(c, aga, k), IsSpriteTest, 0, 1);
  }

  lemma CheckFlags(c: CMode, aga: bool, k: nat)
    ensures AllAgree(c, aga, AgaCheck(c, aga, k))
  {
  }

  /** A check of one AGA pixel neither acts nor writes. */
  lemma CheckPlain(c: CMode, aga: bool, k: nat)
    ensures AllPlain(AgaCheck(c, aga, k))
  {
  }

  /** A write of one of the out_val copies is plain. */
  lemma OutValPlain(v: string)
    requires |v| > 0 && v[0] == 'o'
    ensures AllPlain([Put(v)])
  {
    assert "dpix_val"[0] == 'd';
  }

  lemma Writes1(c: CMode, aga: bool)
    ensures var xs := AgaBatch1(c, aga);
      Select(xs, IsPut) == [Put("out_val")]
  {
    var x := [SpriteTest, RenderAt(0, c == DualPF, aga), IfSprcol, SetOutVal, CloseBlock];
    SelectNone(x, IsPut);
    SelectSnoc(x, Put("out_val"), IsPut);
  }
  lemma Order1(c: CMode, aga: bool)
    ensures var xs := AgaBatch1(c, aga);
      AllBefore(xs, IsOverlay, IsPut)
  {
    var x := [SpriteTest, RenderAt(0, c == DualPF, aga), IfSprcol, SetOutVal, CloseBlock];
    BeforeSnoc(x, Put("out_val"), IsOverlay, IsPut);
  }
  lemma Tests1(c: CMode, aga: bool)
    ensures var xs := AgaBatch1(c, aga);
      Select(xs, IsSpriteTest) == [SpriteTest]
  {
    var x := [SpriteTest, RenderAt(0, c == DualPF, aga), IfSprcol, SetOutVal, CloseBlock];
    SelectRange(x, IsSpriteTest, 0, 1);
    SelectSnoc(x, Put("out_val"), IsSpriteTest);
  }
  lemma Flags1(c: CMode, aga: bool)
    ensures var xs := AgaBatch1(c, aga);
      AllAgree(c, aga, xs)
  {
  }

  /** The opening of a batch of 2: the copies of out_val and the 2 checks. */
  function Checks2(c: CMode, aga: bool): seq<Stmt>
  {
    [OpenBlock, CopyOutVal(1), CopyOutVal(2)]
    + AgaCheck(c, aga, 0) + AgaCheck(c, aga, 1)
  }

  lemma Checks2Puts(c: CMode, aga: bool)
    ensures Select(Checks2(c, aga), IsPut) == [] && Every(Checks2(c, aga), NotPut)
  {
    var o := [OpenBlock, CopyOutVal(1), CopyOutVal(2)];
    var k0, k1 := AgaCheck(c, aga, 0), AgaCheck(c, aga, 1);
    CheckPuts(c, aga, 0);
    CheckPuts(c, aga, 1);
    EveryAppend(o, k0, NotPut);
    EveryAppend(o + k0, k1, NotPut);
    SelectNone(Checks2(c, aga), IsPut);
  }

  lemma Checks2Tests(c: CMode, aga: bool)
    ensures Select(Checks2(c, aga), IsSpriteTest) == [SpriteTestAt(0), SpriteTestAt(1)]
  {
    var o := [OpenBlock, CopyOutVal(1), CopyOutVal(2)];
    var k0, k1 := AgaCheck(c, aga, 0), AgaCheck(c, aga, 1);
    SelectNone(o, IsSpriteTest);
    CheckTests(c, aga, 0);
    CheckTests(c, aga, 1);
    SelectAppend(o, k0, IsSpriteTest);
    SelectAppend(o + k0, k1, IsSpriteTest);
  }

  lemma Checks2Flags(c: CMode, aga: bool)
    ensures AllAgree(c, aga, Checks2(c, aga))
  {
    var o := [OpenBlock, CopyOutVal(1), CopyOutVal(2)];
    var k0, k1 := AgaCheck(c, aga, 0), AgaCheck(c, aga, 1);
    CheckFlags(c, aga, 0);
    CheckFlags(c, aga, 1);
    AgreeAppend(c, aga, o, k0);
    AgreeAppend(c, aga, o + k0, k1);
  }

  lemma Writes2(c: CMode, aga: bool)
    ensures Select(AgaBatch2(c, aga), IsPut) == [Put("out_val1"), Put("out_val2")]
  {
    var pre := Checks2(c, aga);
    Checks2Puts(c, aga);
    SelectSnoc(pre, Put("out_val1"), IsPut);
    SelectSnoc(pre + [Put("out_val1")], Put("out_val2"), IsPut);
    SelectSnoc(pre + [Put("out_val1")] + [Put("out_val2")], CloseBlock, IsPut);
  }

  lemma Order2(c: CMode, aga: bool)
    ensures AllBefore(AgaBatch2(c, aga), IsOverlay, IsPut)
  {
    var pre := Checks2(c, aga);
    Checks2Puts(c, aga);
    BeforeNone(pre, IsOverlay, IsPut);
    BeforeSnoc(pre, Put("out_val1"), IsOverlay, IsPut);
    BeforeSnoc(pre + [Put("out_val1")], Put("out_val2"), IsOverlay, IsPut);
    BeforeSnoc(pre + [Put("out_val1")] + [Put("out_val2")], CloseBlock, IsOverlay, IsPut);
  }

  lemma Tests2(c: CMode, aga: bool)
    ensures Select(AgaBatch2(c, aga), IsSpriteTest) == [SpriteTestAt(0), SpriteTestAt(1)]
  {
    var pre := Checks2(c, aga);
    Checks2Tests(c, aga);
    SelectSnoc(pre, Put("out_val1"), IsSpriteTest);
    SelectSnoc(pre + [Put("out_val1")], Put("out_val2"), IsSpriteTest);
    SelectSnoc(pre + [Put("out_val1")] + [Put("out_val2")], CloseBlock, IsSpriteTest);
  }

  lemma Flags2(c: CMode, aga: bool)
    ensures AllAgree(c, aga, AgaBatch2(c, aga))
  {
    var pre := Checks2(c, aga);
    Checks2Flags(c, aga);
    AgreeAppend(c, aga, pre, [Put("out_val1")]);
    AgreeAppend(c, aga, pre + [Put("out_val1")], [Put("out_val2")]);
    AgreeAppend(c, aga, pre + [Put("out_val1")] + [Put("out_val2")], [CloseBlock]);
  }

  /** The opening of a batch of 4: the copies of out_val and the 4 checks. */
  function Checks4(c: CMode, aga: bool): seq<Stmt>
  {
    [OpenBlock, CopyOutVal(1), CopyOutVal(2), CopyOutVal(3), CopyOutVal(4)]
    + AgaCheck(c, aga, 0) + AgaCheck(c, aga, 1) + AgaCheck(c, aga, 2) + AgaCheck(c, aga, 3)
  }

  lemma Checks4Puts(c: CMode, aga: bool)
    ensures Select(Checks4(c, aga), IsPut) == [] && Every(Checks4(c, aga), NotPut)
  {
    var o := [OpenBlock, CopyOutVal(1), CopyOutVal(2), CopyOutVal(3), CopyOutVal(4)];
    var k0, k1, k2, k3 := AgaCheck(c, aga, 0), AgaCheck(c, aga, 1), AgaCheck(c, aga, 2), AgaCheck(c, aga, 3);
    CheckPuts(c, aga, 0);
    CheckPuts(c, aga, 1);
    CheckPuts(c, aga, 2);
    CheckPuts(c, aga, 3);
    EveryAppend(o, k0, NotPut);
    EveryAppend(o + k0, k1, NotPut);
    EveryAppend(o + k0 + k1, k2, NotPut);
    EveryAppend(o + k0 + k1 + k2, k3, NotPut);
    SelectNone(Checks4(c, aga), IsPut);
  }

  lemma Checks4Tests(c: CMode, aga: bool)
    ensures Select(Checks4(c, aga), IsSpriteTest) == [SpriteTestAt(0), SpriteTestAt(1), SpriteTestAt(2), SpriteTestAt(3)]
  {
    var o := [OpenBlock, CopyOutVal(1), CopyOutVal(2), CopyOutVal(3), CopyOutVal(4)];
    var k0, k1, k2, k3 := AgaCheck(c, aga, 0), AgaCheck(c, aga, 1), AgaCheck(c, aga, 2), AgaCheck(c, aga, 3);
    SelectNone(o, IsSpriteTest);
    CheckTests(c, aga, 0);
    CheckTests(c, aga, 1);
    CheckTests(c, aga, 2);
    CheckTests(c, aga, 3);
    SelectParts5(o, k0, k1, k2, k3, IsSpriteTest);
  }

  lemma Checks4Flags(c: CMode, aga: bool)
    ensures AllAgree(c, aga, Checks4(c, aga))
  {
    var o := [OpenBlock, CopyOutVal(1), CopyOutVal(2), CopyOutVal(3), CopyOutVal(4)];
    var k0, k1, k2, k3 := AgaCheck(c, aga, 0), AgaCheck(c, aga, 1), AgaCheck(c, aga, 2), AgaCheck(c, aga, 3);
    CheckFlags(c, aga, 0);
    CheckFlags(c, aga, 1);
    CheckFlags(c, aga, 2);
    CheckFlags(c, aga, 3);
    AgreeAppend(c, aga, o, k0);
    AgreeAppend(c, aga, o + k0, k1);
    AgreeAppend(c, aga, o + k0 + k1, k2);
    AgreeAppend(c, aga, o + k0 + k1 + k2, k3);
  }

  lemma Writes4(c: CMode, aga: bool)
    ensures Select(AgaBatch4(c, aga), IsPut) == [Put("out_val1"), Put("out_val2"), Put("out_val3"), Put("out_val4")]
  {
    var pre := Checks4(c, aga);
    Checks4Puts(c, aga);
    SelectSnoc(pre, Put("out_val1"), IsPut);
    SelectSnoc(pre + [Put("out_val1")], Put("out_val2"), IsPut);
    SelectSnoc(pre + [Put("out_val1")] + [Put("out_val2")], Put("out_val3"), IsPut);
    SelectSnoc(pre + [Put("out_val1")] + [Put("out_val2")] + [Put("out_val3")], Put("out_val4"), IsPut);
    SelectSnoc(pre + [Put("out_val1")] + [Put("out_val2")] + [Put("out_val3")] + [Put("out_val4")], CloseBlock, IsPut);
  }

  lemma Order4(c: CMode, aga: bool)
    ensures AllBefore(AgaBatch4(c, aga), IsOverlay, IsPut)
  {
    var pre := Checks4(c, aga);
    Checks4Puts(c, aga);
    BeforeNone(pre, IsOverlay, IsPut);
    BeforeSnoc(pre, Put("out_val1"), IsOverlay, IsPut);
    BeforeSnoc(pre + [Put("out_val1")], Put("out_val2"), IsOverlay, IsPut);
    BeforeSnoc(pre + [Put("out_val1")] + [Put("out_val2")], Put("out_val3"), IsOverlay, IsPut);
    BeforeSnoc(pre + [Put("out_val1")] + [Put("out_val2")] + [Put("out_val3")], Put("out_val4"), IsOverlay, IsPut);
    BeforeSnoc(pre + [Put("out_val1")] + [Put("out_val2")] + [Put("out_val3")] + [Put("out_val4")], CloseBlock, IsOverlay, IsPut);
  }

  lemma Tests4(c: CMode, aga: bool)
    ensures Select(AgaBatch4(c, aga), IsSpriteTest) == [SpriteTestAt(0), SpriteTestAt(1), SpriteTestAt(2), SpriteTestAt(3)]
  {
    var pre := Checks4(c, aga);
    Checks4Tests(c, aga);
    SelectSnoc(pre, Put("out_val1"), IsSpriteTest);
    SelectSnoc(pre + [Put("out_val1")], Put("out_val2"), IsSpriteTest);
    SelectSnoc(pre + [Put("out_val1")] + [Put("out_val2")], Put("out_val3"), IsSpriteTest);
    SelectSnoc(pre + [Put("out_val1")] + [Put("out_val2")] + [Put("out_val3")], Put("out_val4"), IsSpriteTest);
    SelectSnoc(pre + [Put("out_val1")] + [Put("out_val2")] + [Put("out_val3")] + [Put("out_val4")], CloseBlock, IsSpriteTest);
  }

  lemma Flags4(c: CMode, aga: bool)
    ensures AllAgree(c, aga, AgaBatch4(c, aga))
  {
    var pre := Checks4(c, aga);
    Checks4Flags(c, aga);
    AgreeAppend(c, aga, pre, [Put("out_val1")]);
    AgreeAppend(c, aga, pre + [Put("out_val1")], [Put("out_val2")]);
    AgreeAppend(c, aga, pre + [Put("out_val1")] + [Put("out_val2")], [Put("out_val3")]);
    AgreeAppend(c, aga, pre + [Put("out_val1")] + [Put("out_val2")] + [Put("out_val3")], [Put("out_val4")]);
    AgreeAppend(c, aga, pre + [Put("out_val1")] + [Put("out_val2")] + [Put("out_val3")] + [Put("out_val4")], [CloseBlock]);
  }

  lemma SharedWrites(c: CMode, aga: bool, cnt: int)
    ensures Select(SharedBatch(c, aga, cnt), IsPut) == Repeat(Put("out_val"), cnt)
  {
    var r := Repeat(Put("out_val"), cnt);
    SelectNone(SharedCheck(c, aga), IsPut);
    SelectRange(r, IsPut, 0, |r|);
    SelectAppend(SharedCheck(c, aga), r, IsPut);
  }

  lemma SharedOrder(c: CMode, aga: bool, cnt: int)
    ensures AllBefore(SharedBatch(c, aga, cnt), IsOverlay, IsPut)
  {
    BeforeByParts(SharedCheck(c, aga), Repeat(Put("out_val"), cnt), IsOverlay, IsPut);
  }

  lemma SharedTests(c: CMode, aga: bool, cnt: int)
    ensures Select(SharedBatch(c, aga, cnt), IsSpriteTest) == [SpriteTest]
  {
    var r := Repeat(Put("out_val"), cnt);
    SelectRange(SharedCheck(c, aga), IsSpriteTest, 0, 1);
    SelectNone(r, IsSpriteTest);
    SelectAppend(SharedCheck(c, aga), r, IsSpriteTest);
  }

  lemma SharedFlags(c: CMode, aga: bool, cnt: int)
    ensures AllAgree(c, aga, SharedBatch(c, aga, cnt))
  {
  }

  /** out_sprite writes exactly cnt destination pixels with buf[dpix++]: on AGA the
      copies out_val1 .. out_val<cnt> in that order, otherwise out_val cnt times. */
  lemma BatchWrites(c: CMode, aga: bool, cnt: int)
    requires Handled(aga, cnt)
    ensures var w := Select(SpriteText(c, aga, cnt), IsPut);
      |w| == cnt && forall i :: 0 <= i < cnt ==> w[i] == Put(Slot(aga, cnt, i))
  {
    if !aga {
      SharedWrites(c, aga, cnt);
    } else if cnt == 1 {
      Writes1(c, aga);
    } else if cnt == 2 {
      Slots2(c, aga);
    } else {
      Slots4(c, aga);
    }
  }

  /** The writes of the AGA batches of two and four, by slot. */
  lemma Slots2(c: CMode, aga: bool)
    requires aga
    ensures var w := Select(AgaBatch2(c, aga), IsPut);
      |w| == 2 && forall i :: 0 <= i < 2 ==> w[i] == Put(Slot(aga, 2, i))
  {
    Writes2(c, aga);
    assert Decimal(1) == "1" && Decimal(2) == "2";
  }

  lemma Slots4(c: CMode, aga: bool)
    requires aga
    ensures var w := Select(AgaBatch4(c, aga), IsPut);
      |w| == 4 && forall i :: 0 <= i < 4 ==> w[i] == Put(Slot(aga, 4, i))
  {
    Writes4(c, aga);
    assert Decimal(1) == "1" && Decimal(2) == "2" && Decimal(3) == "3" && Decimal(4) == "4";
  }

  /** Every sprite test, render and colour replacement of a batch comes before its
      first write: on AGA all cnt pixels are checked before any is written. */
  lemma ChecksBeforeWrites(c: CMode, aga: bool, cnt: int)
    requires Handled(aga, cnt)
    ensures AllBefore(SpriteText(c, aga, cnt), IsOverlay, IsPut)
  {
    if !aga {
      SharedOrder(c, aga, cnt);
    } else if cnt == 1 {
      Order1(c, aga);
    } else if cnt == 2 {
      Order2(c, aga);
    } else {
      Order4(c, aga);
    }
  }

  /** On AGA each pixel of the batch is tested for a sprite, in order; otherwise one
      test covers the whole batch. */
  lemma BatchTests(c: CMode, aga: bool, cnt: int)
    requires Handled(aga, cnt)
    ensures Select(SpriteText(c, aga, cnt), IsSpriteTest) == Tests(aga, cnt)
  {
    if !aga {
      SharedTests(c, aga, cnt);
    } else if cnt == 1 {
      Tests1(c, aga);
    } else if cnt == 2 {
      Tests2(c, aga);
      assert Tests(aga, cnt) == [SpriteTestAt(0), SpriteTestAt(1)];
    } else {
      Tests4(c, aga);
      assert Tests(aga, cnt) == [SpriteTestAt(0), SpriteTestAt(1), SpriteTestAt(2), SpriteTestAt(3)];
    }
  }

  /** Every call of render_sprites in a batch passes dualpf as 1 exactly when the colour
      mode is dual playfield, and the routine's own AGA setting. */
  lemma RenderFlags(c: CMode, aga: bool, cnt: int)
    requires Handled(aga, cnt)
    ensures AllAgree(c, aga, SpriteText(c, aga, cnt))
  {
    if !aga {
      SharedFlags(c, aga, cnt);
    } else if cnt == 1 {
      Flags1(c, aga);
    } else if cnt == 2 {
      Flags2(c, aga);
    } else {
      Flags4(c, aga);
    }
  }

  lemma Plain1(c: CMode, aga: bool)
    ensures AllPlain(AgaBatch1(c, aga))
  {
  }

  lemma Checks2Plain(c: CMode, aga: bool)
    ensures AllPlain(Checks2(c, aga))
  {
    var o := [OpenBlock, CopyOutVal(1), CopyOutVal(2)];
    var k0, k1 := AgaCheck(c, aga, 0), AgaCheck(c, aga, 1);
    CheckPlain(c, aga, 0);
    CheckPlain(c, aga, 1);
    PlainAppend(o, k0);
    PlainAppend(o + k0, k1);
  }

  lemma Plain2(c: CMode, aga: bool)
    ensures AllPlain(AgaBatch2(c, aga))
  {
    var pre := Checks2(c, aga);
    Checks2Plain(c, aga);
    OutValPlain("out_val1");
    OutValPlain("out_val2");
    PlainAppend(pre, [Put("out_val1")]);
    PlainAppend(pre + [Put("out_val1")], [Put("out_val2")]);
    PlainAppend(pre + [Put("out_val1")] + [Put("out_val2")], [CloseBlock]);
  }

  lemma Checks4Plain(c: CMode, aga: bool)
    ensures AllPlain(Checks4(c, aga))
  {
    var o := [OpenBlock, CopyOutVal(1), CopyOutVal(2), CopyOutVal(3), CopyOutVal(4)];
    var k0, k1, k2, k3 := AgaCheck(c, aga, 0), AgaCheck(c, aga, 1), AgaCheck(c, aga, 2), AgaCheck(c, aga, 3);
    CheckPlain(c, aga, 0);
    CheckPlain(c, aga, 1);
    CheckPlain(c, aga, 2);
    CheckPlain(c, aga, 3);
    PlainAppend(o, k0);
    PlainAppend(o + k0, k1);
    PlainAppend(o + k0 + k1, k2);
    PlainAppend(o + k0 + k1 + k2, k3);
  }

  lemma Plain4(c: CMode, aga: bool)
    ensures AllPlain(AgaBatch4(c, aga))
  {
    var pre := Checks4(c, aga);
    Checks4Plain(c, aga);
    OutValPlain("out_val1");
    OutValPlain("out_val2");
    OutValPlain("out_val3");
    OutValPlain("out_val4");
    PlainAppend(pre, [Put("out_val1")]);
    PlainAppend(pre + [Put("out_val1")], [Put("out_val2")]);
    PlainAppend(pre + [Put("out_val1")] + [Put("out_val2")], [Put("out_val3")]);
    PlainAppend(pre + [Put("out_val1")] + [Put("out_val2")] + [Put("out_val3")], [Put("out_val4")]);
    PlainAppend(pre + [Put("out_val1")] + [Put("out_val2")] + [Put("out_val3")] + [Put("out_val4")], [CloseBlock]);
  }

  lemma SharedPlain(c: CMode, aga: bool, cnt: int)
    ensures AllPlain(SharedBatch(c, aga, cnt))
  {
    PlainAppend(SharedCheck(c, aga), Repeat(Put("out_val"), cnt));
  }

  /** A batch, read with the machine: dpix moves on by cnt and the pending colour is
      written cnt times; the sprite overlay is not interpreted. */
  lemma BatchEffect(m: Machine, c: CMode, aga: bool, cnt: int)
    requires Handled(aga, cnt)
    ensures Run(m, SpriteText(c, aga, cnt)) == m.(dpix := m.dpix + cnt, stored := m.stored + Copies(m.outVal, cnt))
  {
    if !aga {
      SharedPlain(c, aga, cnt);
    } else if cnt == 1 {
      Plain1(c, aga);
    } else if cnt == 2 {
      Plain2(c, aga);
    } else {
      Plain4(c, aga);
    }
    BatchWrites(c, aga, cnt);
    RunWrites(m, SpriteText(c, aga, cnt));
  }
}
