/** The statements the generator writes. Each statement of the generated C code is a
    constructor here, and Text renders it to the exact string handed to outln; the
    constructors that outlnf formats carry their arguments. */
module Statements {
  import opened Axes

  /** The scratch variables of the generated pixel pipeline. */
  datatype Var = TmpVal | TmpVal2 | TmpVal3 | DpixVal | OutVal

  function VarName(v: Var): string
  {
    match v
    case TmpVal => "tmp_val"
    case TmpVal2 => "tmp_val2"
    case TmpVal3 => "tmp_val3"
    case DpixVal => "dpix_val"
    case OutVal => "out_val"
  }

  datatype Stmt =
    // out_linetoscr and main
    | CommentOpen | Banner | CommentBlank | GeneratedNote | CommentClose | Blank
    | IfdefAga | EndifAga
    | Decl(p: Point)
    | OpenBrace | CloseBrace
    | BufDecl(d: Depth)
    | SprcolDecl | XorDecl
    | HamTest | DualPFTest | ExtraHBTest | OtherwiseTest | DispatchClose
    | ReturnSpix
    // out_linetoscr_do_srcpix
    | SprFetchAga | FetchAga | Fetch | SprFromFetch
    // out_linetoscr_do_dstpix
    | ResolveHamAga | ResolveHam | SprFromResolve
    | OpenBlock | LookupVal | LookupNoTest | AddSecondOffset | XorVal | ResolveVal | CloseBlock
    | ResolveDualPF
    | HalfBriteTestAga | HalfBriteColourAga | ResolveHalfBriteAga | CloseElse | ResolveIndexed
    | FullBriteTest | Else | ResolveHalfBrite
    | ResolvePlain
    // out_linetoscr_do_incspix
    | TmpDecl | TmpDecls | SpixInc | SpixAdd2 | SpixAdd4
    | Copy(dst: Var)
    | Merge(dst: Var, width: nat, a: Var, b: Var)
    // put_dpix
    | Put(v: string)
    // out_sprite
    | SpriteTest | SpriteTestAt(k: nat)
    | RenderShared(dualpf: bool, aga: bool) | RenderAt(k: nat, dualpf: bool, aga: bool)
    | IfSprcol | SetOutVal | SetOutValN(n: nat) | CopyOutVal(n: nat)
    | IfSprcolOpen | SpcolDecl | SetOutValSpcol | InnerClose
    // out_linetoscr_mode
    | LookupAga | LookupNoAga | LookupEcs
    | RemDecl | AlignTest | SpixValDecl | DpixValDecl | OutValDecl | SprpixValDecl
    | EndTest | RemSet | RemTest | HoldBack | RemOpen | LoopOpen
    | PackBig | PackLittle
    | WordStore | DpixAdd2 | DpixAdd4 | HalfStore8 | WordStore8

  /** A write to the destination line: buf[dpix++] = v. */
  predicate IsPut(s: Stmt) { s.Put? }

  /** "%d" of a C truth value. */
  function Flag(b: bool): string { if b then "1" else "0" }

  /** The line outln writes for a statement, without the indent. */
  function Text(s: Stmt): string
  {
    match s
    case CommentOpen => "/*"
    case Banner => " * E-UAE - The portable Amiga emulator."
    case CommentBlank => " *"
    case GeneratedNote => " * This file was generated by genlinetoscr. Don't edit."
    case CommentClose => " */"
    case Blank => ""
    case IfdefAga => "#ifdef AGA"
    case EndifAga => "#endif"
    case Decl(p) => "static int NOINLINE " + DeclName(p) + " (int spix, int dpix, int dpix_end)"
    case OpenBrace => "{"
    case CloseBrace => "}"
    case BufDecl(d) => "    " + DepthTypeStr(d) + " *buf = (" + DepthTypeStr(d) + " *) xlinebuffer;"
    case SprcolDecl => "    uae_u8 sprcol;"
    case XorDecl => "    uae_u8 xor_val = bplxor;"
    case HamTest => "    if (dp_for_drawing->ham_seen) {"
    case DualPFTest => "    } else if (bpldualpf) {"
    case ExtraHBTest => "    } else if (bplehb) {"
    case OtherwiseTest => "    } else {"
    case DispatchClose => "    }\n"
    case ReturnSpix => "    return spix;"
    case SprFetchAga => "    sprpix_val = pixdata.apixels[spix];"
    case FetchAga => "    spix_val = pixdata.apixels[spix] ^ xor_val;"
    case Fetch => "    spix_val = pixdata.apixels[spix];"
    case SprFromFetch => "    sprpix_val = spix_val;"
    case ResolveHamAga => "    dpix_val = CONVERT_RGB (ham_linebuf[spix]);"
    case ResolveHam => "    dpix_val = xcolors[ham_linebuf[spix]];"
    case SprFromResolve => "    sprpix_val = dpix_val;"
    case OpenBlock => "    {"
    case LookupVal => "        uae_u8 val = lookup[spix_val];"
    case LookupNoTest => "        if (lookup_no[spix_val])"
    case AddSecondOffset => "            val += dblpfofs[bpldualpf2of];"
    case XorVal => "        val ^= xor_val;"
    case ResolveVal => "        dpix_val = colors_for_drawing.acolors[val];"
    case CloseBlock => "    }"
    case ResolveDualPF => "    dpix_val = colors_for_drawing.acolors[lookup[spix_val]];"
    case HalfBriteTestAga => "    if (spix_val >= 32 && spix_val < 64) {"
    case HalfBriteColourAga =>
      "        unsigned int c = (colors_for_drawing.color_regs_aga[spix_val - 32] >> 1) & 0x7F7F7F;"
    case ResolveHalfBriteAga => "        dpix_val = CONVERT_RGB (c);"
    case CloseElse => "    } else"
    case ResolveIndexed => "        dpix_val = colors_for_drawing.acolors[spix_val];"
    case FullBriteTest => "    if (spix_val <= 31)"
    case Else => "    else"
    case ResolveHalfBrite =>
      "        dpix_val = xcolors[(colors_for_drawing.color_regs_ecs[spix_val - 32] >> 1) & 0x777];"
    case ResolvePlain => "    dpix_val = colors_for_drawing.acolors[spix_val];"
    case TmpDecl => "    uae_u32 tmp_val;"
    case TmpDecls => "    uae_u32 tmp_val, tmp_val2, tmp_val3;"
    case SpixInc => "    spix++;"
    case SpixAdd2 => "    spix += 2;"
    case SpixAdd4 => "    spix += 4;"
    case Copy(dst) => "    " + VarName(dst) + " = dpix_val;"
    case Merge(dst, width, a, b) =>
      "    " + VarName(dst) + " = merge_2pixel" + Decimal(width) + " (" + VarName(a) + ", " + VarName(b) + ");"
    case Put(v) => "    buf[dpix++] = " + v + ";"
    case SpriteTest => "    if (spritepixels[dpix].data) {"
    case SpriteTestAt(k) => "    if (spritepixels[dpix + " + Decimal(k) + "].data) {"
    case RenderShared(dualpf, aga) =>
      "        sprcol = render_sprites (dpix, " + Flag(dualpf) + ", sprpix_val, " + Flag(aga) + ");"
    case RenderAt(k, dualpf, aga) =>
      "        sprcol = render_sprites (dpix + " + Decimal(k) + ", " + Flag(dualpf) + ", sprpix_val, " + Flag(aga) + ");"
    case IfSprcol => "        if (sprcol)"
    case SetOutVal => "            out_val = colors_for_drawing.acolors[sprcol];"
    case SetOutValN(n) => "            out_val" + Decimal(n) + " = colors_for_drawing.acolors[sprcol];"
    case CopyOutVal(n) => "    uae_u32 out_val" + Decimal(n) + " = out_val;"
    case IfSprcolOpen => "        if (sprcol) {"
    case SpcolDecl => "            uae_u32 spcol = colors_for_drawing.acolors[sprcol];"
    case SetOutValSpcol => "            out_val = spcol;"
    case InnerClose => "        }"
    case LookupAga => "int *lookup    = bpldualpfpri ? dblpf_ind2_aga : dblpf_ind1_aga;"
    case LookupNoAga => "int *lookup_no = bpldualpfpri ? dblpf_2nd2     : dblpf_2nd1;"
    case LookupEcs => "int *lookup = bpldualpfpri ? dblpf_ind2 : dblpf_ind1;"
    case RemDecl => "int rem;"
    case AlignTest => "if (((long)&buf[dpix]) & 2) {"
    case SpixValDecl => "    uae_u32 spix_val;"
    case DpixValDecl => "    uae_u32 dpix_val;"
    case OutValDecl => "    uae_u32 out_val;"
    case SprpixValDecl => "    uae_u32 sprpix_val;"
    case EndTest => "if (dpix >= dpix_end)"
    case RemSet => "rem = (((long)&buf[dpix_end]) & 2);"
    case RemTest => "if (rem)"
    case HoldBack => "    dpix_end--;"
    case RemOpen => "if (rem) {"
    case LoopOpen => "while (dpix < dpix_end) {"
    case PackBig => "    out_val = (out_val << 16) | (dpix_val & 0xFFFF);"
    case PackLittle => "    out_val = (out_val & 0xFFFF) | (dpix_val << 16);"
    case WordStore => "    *((uae_u32 *)&buf[dpix]) = out_val;"
    case DpixAdd2 => "    dpix += 2;"
    case DpixAdd4 => "    dpix += 4;"
    case HalfStore8 => "    *((uae_u16 *)&buf[dpix]) = (uae_u16) out_val;"
    case WordStore8 => "    *((uae_u32 *)&buf[dpix]) = (uae_u32) out_val;"
  }
}
