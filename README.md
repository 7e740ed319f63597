# genlinetoscr, modelled in Dafny

`genlinetoscr` is the build-time generator of E-UAE (the portable Amiga emulator). It
writes the C source of the `linetoscr_*` routines: one routine per destination depth
(16 or 32 bits), chipset level (OCS/ECS or AGA), sprite setting and horizontal scaling
mode (normal, the two doubling modes, and the four halving modes, two of them
filtered). Each routine converts one line of Amiga playfield pixels into host pixels.
It dispatches on the colour mode of the line (HAM, dual playfield, extra half-brite,
normal), and each branch holds a per-pixel loop specialised for that point of the
configuration space.

This project models the generator and proves what the code it writes does.

- **Configuration axes and name tables** (`axes.dfy`). Depth, scaling mode, colour
  mode and the configuration `Point` are datatypes. `get_depth_str`,
  `get_depth_type_str`, `get_hmode_str` and the routine name built by
  `out_linetoscr_decl` are functions. The depth string, the scaling-mode suffix and the
  routine name each have a parser as their partner, so routine names are proved
  injective; the buffer's element type is tied to the depth string.
- **Statements** (`statements.dfy`). Every line the generator hands to `outln` or
  `outlnf` is a constructor of `Stmt`. `Text` renders it to the exact string, with the
  `outlnf` arguments formatted.
- **What each emitter writes** (`emission.dfy`). One pure function per C emitter lists
  its statements in order: `do_srcpix`, `do_dstpix`, `do_incspix`, `out_sprite`, the
  parts of `out_linetoscr_mode`, `out_linetoscr`, and the routines main visits.
- **The generator** (`generator.dfy`). It is a class with the C globals
  `outfile_indent` (`indent`), the output stream (`out`, a sequence of lines) and
  `do_bigendian`. Every emitter is a method. Each proves that it appends exactly
  `Emit(indent, <its statements>)`, which is outln's rendering at the current indent.
  `outln`'s space loop and main's four nested loops are `while`/`for` loops with
  invariants.
- **A symbolic reading of the generated loop** (`semantics.dfy`, `pipeline.dfy`,
  `iteration.dfy`). The generated C is not run. Each statement acts on a machine
  whose pipeline variables hold terms over source pixels. It follows `spix`, `dpix`,
  `spix_val`, `dpix_val`, `tmp_val*`, `out_val`, and the values stored into `buf`. The properties
  proved over this reading:
  - that each resolve reads the index its fetch left in `spix_val` (HAM reads the
    pixel at `spix`);
  - how far each scaling mode moves the source cursor;
  - which pixels a filtered halving merges, in which order, and at which width;
  - how many destination pixels and bytes one iteration writes;
  - where each half of a packed 16-bit pair lands.
- **Sprites** (`sprites.dfy`). For each batch `out_sprite` writes, the model proves:
  - the writes it makes;
  - the tests it makes and their order;
  - the flags it passes to `render_sprites`.
- **Layout of the generated code** (`layout.dfy`). Proved properties:
  - the alignment fixup and the packing write appear exactly for unsprited,
    undoubled 16-bit points;
  - the byte order changes one line only;
  - the `#ifdef AGA` bracketing;
  - the priority of the colour-mode dispatch.
- **Enumeration** (`enumeration.dfy`). main visits 56 points, in nesting order, and
  every one gets a distinct routine name.
- **Shared helpers**. `lines.dfy` holds the rendering of lines and generic facts about
  selecting and summing over runs of statements.

## Model

| member | source | states |
|---|---|---|
| Axes.DepthStr | src/genlinetoscr.c:23-31 | the depth in a routine name is the decimal bit count of the destination pixel ("16", "32", and "8" for DEPTH_8BPP) |
| Axes.DepthTypeStr | src/genlinetoscr.c:33-41 | the buffer's element type is "uae_u" followed by the depth string |
| Axes.HModeStr | src/genlinetoscr.c:54-70 | the suffix is empty exactly for HMODE_NORMAL, and the suffix parser reads every suffix back to its mode |
| Axes.HModeIndex | src/genlinetoscr.c:45-52 | every scaling mode has an HMODE number below 7 (HMODE_MAX is 6) that decodes back to it |
| Axes.MergeWidth | src/genlinetoscr.c:181 | the width passed to merge_2pixel is the destination pixel's bit count (8, 16 or 32) |
| Axes.DeclName | src/genlinetoscr.c:117-122 | every routine name starts with "linetoscr_" |
| Axes.ParseDeclName | src/genlinetoscr.c:117-122 | parsing the name built for a point gives back that point (depth, mode, `_aga`, `_spr`) |
| Axes.DeclNameInjective | src/genlinetoscr.c:117-122 | two points with the same routine name are the same point |
| Lines.Spaces | src/genlinetoscr.c:100-102 | the indent written before a line is exactly `n` spaces |
| GenLineToScr.Generator.constructor | src/genlinetoscr.c:470 | the generator starts at indent 0, has written nothing, and has its byte order fixed |
| GenLineToScr.Generator.SetIndent | src/genlinetoscr.c:91-96 | the indent becomes `n` and the previous indent is returned |
| GenLineToScr.Generator.OutLn | src/genlinetoscr.c:98-115 | one line is appended: `indent` spaces (loop invariant: the prefix built so far is `i` spaces) then the text |
| GenLineToScr.Generator.OutStmt | src/genlinetoscr.c:98-104 | one statement is written as one line at the current indent |
| GenLineToScr.Generator.LineToScrDecl | src/genlinetoscr.c:117-122 | the declaration line is written with the name DeclName gives the point |
| GenLineToScr.Generator.SrcPix | src/genlinetoscr.c:124-135 | appends the fetch for the chipset, colour mode and sprite setting |
| GenLineToScr.Generator.DstPix | src/genlinetoscr.c:137-170 | appends the colour resolve for the chipset, colour mode and sprite setting |
| GenLineToScr.Generator.IncSpix | src/genlinetoscr.c:172-211 | appends the source advance of the scaling mode, with the extra fetches and merges of HALVE1F and HALVE2F |
| GenLineToScr.Generator.Halve2FSteps | src/genlinetoscr.c:185-198 | appends HALVE2F's block opening and its three fetch-resolve-keep steps |
| GenLineToScr.Generator.PutDpix | src/genlinetoscr.c:214-217 | appends the single statement `buf[dpix++] = v;` |
| GenLineToScr.Generator.Sprite | src/genlinetoscr.c:219-289 | appends the sprite batch for the chipset and count; on AGA, a count other than 1, 2 or 4 writes nothing |
| GenLineToScr.Generator.AgaSprite1 | src/genlinetoscr.c:222-228 | appends the AGA batch of one pixel |
| GenLineToScr.Generator.AgaSprite2 | src/genlinetoscr.c:229-245 | appends the AGA batch of two pixels |
| GenLineToScr.Generator.AgaSprite4 | src/genlinetoscr.c:246-276 | appends the AGA batch of four pixels |
| GenLineToScr.Generator.SharedSprite | src/genlinetoscr.c:278-288 | appends one shared sprite test, then `cnt` writes of out_val (loop invariant on the writes so far) |
| GenLineToScr.Generator.PixelSteps | src/genlinetoscr.c:333-335 | appends fetch, resolve and advance for one source step |
| GenLineToScr.Generator.Lookup | src/genlinetoscr.c:296-300 | appends the dual-playfield lookup selection (two lines on AGA, one otherwise, none outside dual playfield) |
| GenLineToScr.Generator.FixupPrologue | src/genlinetoscr.c:305-322 | appends the alignment prologue: a lone first pixel, the early return, and the held-back last pixel |
| GenLineToScr.Generator.Pack | src/genlinetoscr.c:339-348 | appends the second step and the packing statement for the generator's byte order, and nothing where pixels are not packed |
| GenLineToScr.Generator.Writes | src/genlinetoscr.c:350-407 | appends the destination stores for the scaling mode, depth and sprite setting |
| GenLineToScr.Generator.Loop | src/genlinetoscr.c:326-407 | appends the loop body: locals, first step, copy to out_val, packing, stores |
| GenLineToScr.Generator.LoopBlock | src/genlinetoscr.c:325-409 | appends the loop's opening line, its body and its closing brace |
| GenLineToScr.Generator.FixupEpilogue | src/genlinetoscr.c:412-423 | appends the write of the held-back pixel |
| GenLineToScr.Generator.ModeCode | src/genlinetoscr.c:296-423 | appends the whole colour-mode code (lookup, fixup, loop, fixup) at the current indent |
| GenLineToScr.Generator.Mode | src/genlinetoscr.c:292-428 | the colour-mode code is written at indent 8 whatever the caller's indent, and the caller's indent is restored |
| GenLineToScr.Generator.Prelude | src/genlinetoscr.c:432-443 | appends the AGA guard, declaration, brace, the declaration of buf, the sprcol and xor_val locals, and the blank line |
| GenLineToScr.Generator.Branch | src/genlinetoscr.c:445-452 | appends one dispatch test followed by that colour mode's code; the indent is unchanged |
| GenLineToScr.Generator.Dispatch | src/genlinetoscr.c:445-453 | appends the four branches in the order HAM, dual playfield, extra half-brite, normal; the indent is unchanged |
| GenLineToScr.Generator.Postlude | src/genlinetoscr.c:454-460 | appends the dispatch close, `return spix;`, the closing brace, the AGA `#endif` and the blank line |
| GenLineToScr.Generator.LineToScr | src/genlinetoscr.c:430-461 | appends the complete routine for a point; the indent is unchanged |
| GenLineToScr.Generator.GenerateAll | src/genlinetoscr.c:481-497 | writes the banner comment, then the routine of every point in main's visiting order; the indent is unchanged |
| GenLineToScr.Generator.GenerateDepth | src/genlinetoscr.c:489-496 | writes the routines of both chipset levels for one depth, skipping AGA at 8 bits |
| GenLineToScr.Generator.GenerateChipset | src/genlinetoscr.c:492-495 | writes the routines without and then with sprites |
| GenLineToScr.Generator.GenerateModes | src/genlinetoscr.c:493-494 | writes one routine per scaling mode, in HMODE order |
| GenLineToScr.DispatchUnrolled | src/genlinetoscr.c:445-453 | the dispatch is the four branches, HAM first and normal last |
| Emission.Repeat | src/genlinetoscr.c:286-287 | `while (cnt-- > 0)` writes `cnt` copies, and none when `cnt <= 0` |
| Pipeline.SampleCovers | src/genlinetoscr.c:172-211 | a step's colour blends exactly the pixels it consumes, each once, in the filtered halvings; every other mode keeps the first pixel; every merge is at the destination's width |
| Pipeline.SrcPixFetches | src/genlinetoscr.c:124-135 | a fetch leaves the index of the pixel at spix in spix_val and changes nothing else; only HAM on OCS/ECS fetches nothing |
| Pipeline.DstPixResolves | src/genlinetoscr.c:137-170 | once spix_val holds the index of the pixel at spix (HAM needs none: it reads ham_linebuf), every resolve leaves that pixel's colour in dpix_val and changes nothing else |
| Pipeline.FetchResolveEffect | src/genlinetoscr.c:124-170 | fetch then resolve sets dpix_val to the current pixel's colour, and spix_val to its index wherever it is fetched, and changes nothing else |
| Pipeline.Halve1FRun | src/genlinetoscr.c:174-183 | HALVE1F moves spix by 2 and leaves merge_2pixel(pixel spix+1, incoming dpix_val) in dpix_val: the later pixel first |
| Pipeline.Halve2FHead | src/genlinetoscr.c:185-198 | after HALVE2F's three further fetches, tmp_val keeps the incoming dpix_val and tmp_val2, tmp_val3 and dpix_val hold pixels spix+1, spix+2, spix+3; nothing is written |
| Pipeline.Halve2FMergesRun | src/genlinetoscr.c:199-201 | the three merges blend the pairs (tmp_val, tmp_val2) and (tmp_val3, dpix_val), then the two results |
| Pipeline.Halve2FRun | src/genlinetoscr.c:184-203 | HALVE2F moves spix by 4 and leaves merge(merge(dpix_val, p1), merge(p2, p3)) in dpix_val, where dpix_val is the first pixel's colour |
| Pipeline.UnfilteredEffect | src/genlinetoscr.c:204-210 | the unfiltered modes move spix by 1, 2 or 4 and keep dpix_val |
| Pipeline.PixelStepEffect | src/genlinetoscr.c:333-335 | a step moves spix by Advance(hmode) and leaves Sample(depth, hmode, spix) in dpix_val |
| LoopIteration.PackOrder | src/genlinetoscr.c:344-347 | in both byte orders the earlier pixel lands in the half at the lower address and the later one in the other half |
| LoopIteration.PackEffect | src/genlinetoscr.c:339-348 | the packing half moves spix by one more step and packs its colour with out_val in the generator's byte order |
| LoopIteration.HeadEffect | src/genlinetoscr.c:327-337 | locals, one step and the copy leave the step's colour in out_val and write nothing |
| LoopIteration.ReadEffect | src/genlinetoscr.c:327-348 | everything before the stores moves spix by Advance times the steps per iteration and leaves the iteration's word in out_val |
| LoopIteration.WriteEffect | src/genlinetoscr.c:350-407 | the stores move dpix by DestAdvance and store out_val Stores times |
| LoopIteration.WriteBytes | src/genlinetoscr.c:350-407 | the bytes stored in one iteration are exactly the bytes dpix moves over |
| LoopIteration.BatchBytes | src/genlinetoscr.c:219-288 | a sprite batch of `cnt` stores `cnt` pixels' worth of bytes |
| LoopIteration.LoopBodyEffect | src/genlinetoscr.c:325-409 | one iteration moves spix by Advance times the steps, moves dpix by DestAdvance, and stores the iteration's word Stores times |
| LoopIteration.CursorRatio | src/genlinetoscr.c:325-409 | over one iteration, (dpix moved) × Advance = (spix moved) × Replicas: the ratio each scaling mode names |
| SpriteBatches.BatchWrites | src/genlinetoscr.c:219-288 | a batch writes exactly `cnt` pixels: out_val1 .. out_val<cnt> in order on AGA, and out_val `cnt` times otherwise |
| SpriteBatches.ChecksBeforeWrites | src/genlinetoscr.c:219-288 | every sprite test, render and colour replacement of a batch comes before its first write |
| SpriteBatches.BatchTests | src/genlinetoscr.c:219-288 | on AGA each pixel is tested in order (dpix + 0 .. dpix + cnt-1); otherwise one test covers the batch |
| SpriteBatches.RenderFlags | src/genlinetoscr.c:224-280 | every render_sprites call passes 1 for dual playfield exactly in that colour mode, and the routine's AGA setting |
| SpriteBatches.BatchEffect | src/genlinetoscr.c:219-288 | a batch moves dpix by `cnt` and stores the pending colour `cnt` times |
| Layout.FixupPresence | src/genlinetoscr.c:305-423 | every fixup statement (`int rem;`, the `& 2` alignment test, the early-end test, rem's setting and test, `dpix_end--`, the `if (rem) {` epilogue) appears when depth is 16 bits, not DOUBLE/DOUBLE2X, and no sprites, and none appears otherwise; the packing statement appears under the same condition, and the other byte order's never |
| Layout.PackedFixup | src/genlinetoscr.c:305-348 | with packing, every fixup statement of the prologue and epilogue is present and the packing statement is the generator's byte order |
| Layout.UnpackedNoFixup | src/genlinetoscr.c:305-423 | without packing, none of the fixup statements and neither packing statement appears |
| Layout.PackOnce | src/genlinetoscr.c:344-347 | the other byte order's packing statement appears nowhere in a colour mode's code |
| Layout.EndianOneStatement | src/genlinetoscr.c:344-347 | the two byte orders' colour-mode codes have the same length and differ at exactly one position, the packing statement, and only where pixels are packed |
| Layout.EndianOneLine | src/genlinetoscr.c:344-347 | the same for the written lines: exactly one line differs, and only for packed points |
| Layout.AgaBracket | src/genlinetoscr.c:430-461 | on AGA a routine's first line is `#ifdef AGA` and its second-last is `#endif`; otherwise they are the declaration and the closing brace; the last line is blank |
| Layout.DispatchPriority | src/genlinetoscr.c:445-453 | the generated if/else chain runs HAM if ham_seen, else dual playfield if bpldualpf, else extra half-brite if bplehb, else normal |
| Layout.DispatchCovers | src/genlinetoscr.c:445-453 | each colour mode has exactly one branch; the first opens with `if`, the later ones with `} else ` |
| Enumeration.PointsAt | src/genlinetoscr.c:488-497 | main visits 56 points; position 28·d + 14·aga + 7·spr + hmode holds exactly that point |
| Enumeration.PointsCover | src/genlinetoscr.c:488-497 | a point is visited iff it is 16- or 32-bit, and it sits at its position |
| Enumeration.PositionOfPoint | src/genlinetoscr.c:488-497 | the point visited at each position is visited nowhere else |
| Enumeration.NamesDistinct | src/genlinetoscr.c:488-497 | no two routines main writes share a name |

## Left out

- The option scan of main (lines 472-477) is left out. `-b` only sets `do_bigendian`, which is the constructor's `bigEndian` parameter.
- `set_outfile` and the `FILE *` stream are left out. Output is the sequence of lines written so far. `fputc` and `fprintf` are folded into appending one line.
- `outlnf`'s `vfprintf` is not modelled as a general formatter. Each formatted line is a constructor that carries its arguments (names, `%d` widths and flags), and `Text` formats it.
- GenLineToScr.Generator.Postlude: the dispatch close is `outln ("    }\n")`, one call whose text holds a newline. The model writes it as one line whose text ends in `\n`. It does not split it into the two lines a reader of the file sees.
- The generated code is read symbolically, not run. The model does not interpret:
  - the sprite tests and the colour a sprite puts in place of the playfield colour;
  - the half-brite test and its two branches (both resolve the pixel);
  - what the colour tables, the dual-playfield lookup, `CONVERT_RGB` and the XOR
    toggle make of a pixel's index: a fetch is read as "spix_val holds the index of
    the pixel at spix", and a non-HAM resolve as "dpix_val holds the colour of the index
    in spix_val";
  - `sprpix_val`, which only the sprite code reads;
  - the arithmetic of `merge_2pixel`;
  - the bit layout of the packing (taken as the two halves in order).
- The alignment fixup's run-time control flow is left out: the address tests, the early return and `dpix_end--`. The fixup is modelled as text (Layout.FixupPresence), not as a run of the machine.
- Pipeline.PixelStepEffect does not follow `tmp_val` .. `tmp_val3` after a step. They are locals of the step's own block, so the property leaves them out.
- SpriteBatches.BatchWrites, ChecksBeforeWrites, BatchTests, RenderFlags and BatchEffect require an AGA count of 1, 2 or 4. These are the counts the source calls `out_sprite` with; any other AGA count writes nothing, which `Sprite` still models.
- Depth `DEPTH_8BPP` and its emitter branches are modelled, but main never visits them.
