/** The configuration axes of the line-to-screen code generator and the tables that
    turn them into the pieces of a generated routine's name. */
module Axes {

  /** Pixel depth of the destination line buffer (DEPTH_8BPP, DEPTH_16BPP, DEPTH_32BPP). */
  datatype Depth = D8 | D16 | D32

  /** Horizontal scaling mode (HMODE_NORMAL .. HMODE_HALVE2F, in that order). */
  datatype HMode = Normal | Double | Double2x | Halve1 | Halve1F | Halve2 | Halve2F

  /** Colour mode, dispatched at run time inside every generated routine. */
  datatype CMode = CNormal | DualPF | ExtraHB | Ham

  datatype Option<T> = None | Some(value: T)

  /** The C encoding of a depth (DEPTH_8BPP = 0, DEPTH_16BPP = 1, DEPTH_32BPP = 2). */
  function DepthOf(n: int): Depth
  {
    if n == 0 then D8 else if n == 1 then D16 else D32
  }

  /** The C encoding of a scaling mode (HMODE_NORMAL = 0 .. HMODE_HALVE2F = 6). */
  function HModeOf(n: int): HMode
  {
    if n == 1 then Double
    else if n == 2 then Double2x
    else if n == 3 then Halve1
    else if n == 4 then Halve1F
    else if n == 5 then Halve2
    else if n == 6 then Halve2F
    else Normal
  }

  /** The number HModeOf maps back to a scaling mode. */
  function HModeIndex(h: HMode): (n: nat)
    ensures n < 7 && HModeOf(n) == h
  {
    match h
    case Normal => 0
    case Double => 1
    case Double2x => 2
    case Halve1 => 3
    case Halve1F => 4
    case Halve2 => 5
    case Halve2F => 6
  }

  /** One point of the generated configuration space: the arguments of out_linetoscr. */
  datatype Point = Point(depth: Depth, hmode: HMode, aga: bool, spr: bool)

  /** Number of bits per destination pixel. */
  function Bits(d: Depth): nat
  {
    match d
    case D8 => 8
    case D16 => 16
    case D32 => 32
  }

  function DigitChar(n: nat): char
    requires n < 10
  {
    "0123456789"[n]
  }

  /** Decimal rendering of a natural number, as printf's %d writes it. */
  function Decimal(n: nat): (r: string)
    ensures |r| >= 1
    decreases n
  {
    if n < 10 then [DigitChar(n)] else Decimal(n / 10) + [DigitChar(n % 10)]
  }

  /** get_depth_str: the depth as written in routine names. */
  function DepthStr(d: Depth): (r: string)
    ensures r == Decimal(Bits(d))
  {
    if d == D8 then "8"
    else if d == D16 then "16"
    else "32"
  }

  /** get_depth_type_str: the C element type of the destination buffer. */
  function DepthTypeStr(d: Depth): (r: string)
    ensures r == "uae_u" + DepthStr(d)
  {
    if d == D8 then "uae_u8"
    else if d == D16 then "uae_u16"
    else "uae_u32"
  }

  /** get_hmode_str: the name suffix of a scaling mode. */
  function HModeStr(h: HMode): (r: string)
    ensures r == "" <==> h == Normal
    ensures ParseHModeSuffix(r) == Some(h)
  {
    match h
    case Double => "_stretch1"
    case Double2x => "_stretch2"
    case Halve1 => "_shrink1"
    case Halve1F => "_shrink1f"
    case Halve2 => "_shrink2"
    case Halve2F => "_shrink2f"
    case Normal => ""
  }

  /** Reads a scaling-mode suffix back; the partner of HModeStr. */
  function ParseHModeSuffix(s: string): Option<HMode>
  {
    if s == "" then Some(Normal)
    else if s == "_stretch1" then Some(Double)
    else if s == "_stretch2" then Some(Double2x)
    else if s == "_shrink1" then Some(Halve1)
    else if s == "_shrink1f" then Some(Halve1F)
    else if s == "_shrink2" then Some(Halve2)
    else if s == "_shrink2f" then Some(Halve2F)
    else None
  }

  /** Width argument of the merge_2pixel primitive used by the filtered halving modes. */
  function MergeWidth(d: Depth): (r: nat)
    ensures r == Bits(d)
  {
    if d == D8 then 8 else if d == D16 then 16 else 32
  }

  function AgaSuffix(aga: bool): string { if aga then "_aga" else "" }

  function SprSuffix(spr: bool): string { if spr then "_spr" else "" }

  /** The name out_linetoscr_decl gives the routine generated for a point. */
  function DeclName(p: Point): (r: string)
    ensures |r| > 10 && r[..10] == "linetoscr_"
  {
    "linetoscr_" + DepthStr(p.depth) + HModeStr(p.hmode) + AgaSuffix(p.aga) + SprSuffix(p.spr)
  }

  function StripSuffix(s: string, suffix: string): (r: Option<string>)
    ensures r.Some? <==> |suffix| <= |s| && s[|s| - |suffix|..] == suffix
    ensures r.Some? ==> r.value + suffix == s
  {
    if |suffix| <= |s| && s[|s| - |suffix|..] == suffix then Some(s[..|s| - |suffix|]) else None
  }

  function StripPrefix(s: string, prefix: string): (r: Option<string>)
    ensures r.Some? <==> |prefix| <= |s| && s[..|prefix|] == prefix
    ensures r.Some? ==> prefix + r.value == s
  {
    if |prefix| <= |s| && s[..|prefix|] == prefix then Some(s[|prefix|..]) else None
  }

  function ParseDepth(s: string): Option<(Depth, string)>
  {
    match StripPrefix(s, "8")
    case Some(rest) => Some((D8, rest))
    case None =>
      match StripPrefix(s, "16")
      case Some(rest) => Some((D16, rest))
      case None =>
        match StripPrefix(s, "32")
        case Some(rest) => Some((D32, rest))
        case None => None
  }

  /** Splits an optional flag suffix off a name: the rest and whether it was there. */
  function SplitFlag(s: string, suffix: string): (string, bool)
  {
    match StripSuffix(s, suffix)
    case Some(t) => (t, true)
    case None => (s, false)
  }

  /** Reads "linetoscr_" + depth + mode suffix back, once the flag suffixes are gone. */
  function ParseCore(s: string, aga: bool, spr: bool): Option<Point>
  {
    match StripPrefix(s, "linetoscr_")
    case None => None
    case Some(s3) =>
      match ParseDepth(s3)
      case None => None
      case Some((d, rest)) =>
        match ParseHModeSuffix(rest)
        case None => None
        case Some(h) => Some(Point(d, h, aga, spr))
  }

  /** Recovers the configuration point from a routine name; the partner of DeclName. */
  function ParseName(s: string): Option<Point>
  {
    var (s1, spr) := SplitFlag(s, "_spr");
    var (s2, aga) := SplitFlag(s1, "_aga");
    ParseCore(s2, aga, spr)
  }

  lemma StripAppended(x: string, suffix: string)
    ensures StripSuffix(x + suffix, suffix) == Some(x)
  {
    assert (x + suffix)[|x|..] == suffix;
    assert (x + suffix)[..|x|] == x;
  }

  lemma StripPrepended(prefix: string, x: string)
    ensures StripPrefix(prefix + x, prefix) == Some(x)
  {
    assert (prefix + x)[..|prefix|] == prefix;
    assert (prefix + x)[|prefix|..] == x;
  }

  /** A string whose last character is not the suffix's last character does not end with it. */
  lemma NoSuffix(s: string, suffix: string)
    requires |suffix| > 0
    requires |s| > 0 && s[|s| - 1] != suffix[|suffix| - 1]
    ensures StripSuffix(s, suffix) == None
  {
  }

  /** The last character of a name before its chipset suffix is a digit or 'f'. */
  lemma CoreLastChar(d: Depth, h: HMode)
    ensures var core := "linetoscr_" + DepthStr(d) + HModeStr(h);
      |core| > 0 && core[|core| - 1] in "0123456789f"
  {
    var core := "linetoscr_" + DepthStr(d) + HModeStr(h);
    if HModeStr(h) == "" {
      assert core == "linetoscr_" + DepthStr(d);
    } else {
      assert core[|core| - 1] == HModeStr(h)[|HModeStr(h)| - 1];
    }
  }

  lemma ParseDepthOf(d: Depth, rest: string)
    ensures ParseDepth(DepthStr(d) + rest) == Some((d, rest))
  {
    var s := DepthStr(d) + rest;
    match d
    case D8 =>
      StripPrepended("8", rest);
    case D16 =>
      assert s[0] == '1';
      NoPrefix(s, "8");
      StripPrepended("16", rest);
    case D32 =>
      assert s[0] == '3';
      NoPrefix(s, "8");
      NoPrefix(s, "16");
      StripPrepended("32", rest);
  }

  lemma NoPrefix(s: string, prefix: string)
    requires |prefix| > 0 && |s| > 0 && s[0] != prefix[0]
    ensures StripPrefix(s, prefix) == None
  {
  }

  /** A flag suffix is split off exactly when it was appended, provided the name it
      was appended to does not end in the suffix's last character. */
  lemma SplitAppendedFlag(x: string, suffix: string, flag: bool)
    requires |suffix| > 0 && |x| > 0 && x[|x| - 1] != suffix[|suffix| - 1]
    ensures SplitFlag(x + (if flag then suffix else ""), suffix) == (x, flag)
  {
    if flag {
      StripAppended(x, suffix);
    } else {
      assert x + "" == x;
      NoSuffix(x, suffix);
    }
  }

  lemma ParseCoreOf(d: Depth, h: HMode, aga: bool, spr: bool)
    ensures ParseCore("linetoscr_" + DepthStr(d) + HModeStr(h), aga, spr) == Some(Point(d, h, aga, spr))
  {
    var rest := DepthStr(d) + HModeStr(h);
    assert "linetoscr_" + DepthStr(d) + HModeStr(h) == "linetoscr_" + rest;
    StripPrepended("linetoscr_", rest);
    ParseDepthOf(d, HModeStr(h));
    ParseCoreSteps("linetoscr_" + rest, rest, d, HModeStr(h), h, aga, spr);
  }

  lemma ParseCoreSteps(s: string, s3: string, d: Depth, rest: string, h: HMode, aga: bool, spr: bool)
    requires StripPrefix(s, "linetoscr_") == Some(s3)
    requires ParseDepth(s3) == Some((d, rest))
    requires ParseHModeSuffix(rest) == Some(h)
    ensures ParseCore(s, aga, spr) == Some(Point(d, h, aga, spr))
  {
  }

  /** Reading a generated name back yields the point it was generated for. */
  lemma {:induction false} ParseDeclName(p: Point)
    ensures ParseName(DeclName(p)) == Some(p)
  {
    var core := "linetoscr_" + DepthStr(p.depth) + HModeStr(p.hmode);
    var withAga := core + AgaSuffix(p.aga);
    CoreLastChar(p.depth, p.hmode);
    assert withAga[|withAga| - 1] in "0123456789fa";
    SplitAppendedFlag(withAga, "_spr", p.spr);
    SplitAppendedFlag(core, "_aga", p.aga);
    ParseCoreOf(p.depth, p.hmode, p.aga, p.spr);
  }

  /** No two configuration points share a routine name, whatever suffixes follow the mode suffix. */
  lemma DeclNameInjective(p: Point, q: Point)
    requires DeclName(p) == DeclName(q)
    ensures p == q
  {
    ParseDeclName(p);
    ParseDeclName(q);
  }
}
