/**
 * Worked examples from the repository's tests, stated over the canonical units
 * the test strings import to.
 */
module Vectors {
  import opened Options
  import opened Alphabet
  import opened Tables
  import opened Decoder
  import opened UmschStrings
  import opened Encoder

  /** "bdtpbdtptptptp" as canonical units. */
  const BDTP: seq<int> := [PSEUDO_b, PSEUDO_d, PSEUDO_t, PSEUDO_p, PSEUDO_b, PSEUDO_d, PSEUDO_t,
                           PSEUDO_p, PSEUDO_t, PSEUDO_p, PSEUDO_t, PSEUDO_p, PSEUDO_t, PSEUDO_p]

  // `find_all` of "p" in "bdtpbdtptptptp".

  /** Both bounds counted from the end: the slice 9..12. */
  lemma FindAllNegativeBounds()
    ensures FindAllIn(BDTP, [PSEUDO_p], Some(-5), Some(-2)) == [9, 11]
  {
    var s := BDTP;
    assert Bound(Some(-5), 0, 14) == 9 && Bound(Some(-2), 14, 14) == 12;
    UnitMatchStep(s, PSEUDO_p, 11, 12);
    UnitMatchStep(s, PSEUDO_p, 10, 12);
    UnitMatchStep(s, PSEUDO_p, 9, 12);
  }

  /** An end at 11 leaves out the match at 11. */
  lemma FindAllPositiveBounds()
    ensures FindAllIn(BDTP, [PSEUDO_p], Some(4), Some(11)) == [7, 9]
  {
    var s := BDTP;
    assert Bound(Some(4), 0, 14) == 4 && Bound(Some(11), 14, 14) == 11;
    UnitMatchStep(s, PSEUDO_p, 10, 11);
    UnitMatchStep(s, PSEUDO_p, 9, 11);
    UnitMatchStep(s, PSEUDO_p, 8, 11);
    UnitMatchStep(s, PSEUDO_p, 7, 11);
    UnitMatchStep(s, PSEUDO_p, 6, 11);
    UnitMatchStep(s, PSEUDO_p, 5, 11);
    UnitMatchStep(s, PSEUDO_p, 4, 11);
  }

  /** A start from the front and an end from the back: the slice 4..12. */
  lemma FindAllMixedBounds()
    ensures FindAllIn(BDTP, [PSEUDO_p], Some(4), Some(-2)) == [7, 9, 11]
  {
    var s := BDTP;
    assert Bound(Some(4), 0, 14) == 4 && Bound(Some(-2), 14, 14) == 12;
    UnitMatchStep(s, PSEUDO_p, 11, 12);
    UnitMatchStep(s, PSEUDO_p, 10, 12);
    UnitMatchStep(s, PSEUDO_p, 9, 12);
    UnitMatchStep(s, PSEUDO_p, 8, 12);
    UnitMatchStep(s, PSEUDO_p, 7, 12);
    UnitMatchStep(s, PSEUDO_p, 6, 12);
    UnitMatchStep(s, PSEUDO_p, 5, 12);
    UnitMatchStep(s, PSEUDO_p, 4, 12);
  }

  // ----- decoding, case and export -----

  // Single lookups in the Unicode tables. Each is its own lemma: a proof that
  // unfolds several of the long tables at once is too costly.

  lemma ReadsI() ensures Translate(Unicode, ASC_I) == ASC_I {}
  lemma ReadsM() ensures Translate(Unicode, ASC_m) == PSEUDO_m {}
  lemma ReadsN() ensures Translate(Unicode, ASC_n) == PSEUDO_n {}
  lemma ReadsSmallY() ensures Translate(Unicode, ASC_y) == PSEUDO_y {}
  lemma ReadsSpace() ensures Translate(Unicode, ASC_SPACE) == ASC_SPACE {}
  lemma ReadsCapitalY() ensures Translate(Unicode, ASC_Y) == PSEUDO_Y {}
  lemma ReadsQ() ensures Translate(Unicode, ASC_q) == PSEUDO_q {}
  lemma ReadsCapitalQ() ensures Translate(Unicode, ASC_Q) == PSEUDO_Q {}
  lemma ReadsB() ensures Translate(Unicode, ASC_b) == PSEUDO_b {}
  lemma ReadsT() ensures Translate(Unicode, ASC_t) == PSEUDO_t {}
  lemma ReadsCapitalAin() ensures Translate(Unicode, UN_CAPITAL_AIN) == PSEUDO_SMALL_AIN {}
  lemma ReadsCapitalAleph() ensures Translate(Unicode, UN_CAPITAL_ALEPH) == PSEUDO_SMALL_ALEPH {}
  lemma ReadsCapitalHWithBreve() ensures Translate(Unicode, UN_H_WITH_BREVE) == PSEUDO_H_WITH_BREVE {}
  lemma ReadsCapitalH() ensures Translate(Unicode, ASC_H) == PSEUDO_H {}
  lemma ReadsSmallAin() ensures Translate(Unicode, UN_SMALL_AIN) == PSEUDO_SMALL_AIN {}
  lemma ReadsSmallAleph() ensures Translate(Unicode, UN_SMALL_ALEPH) == PSEUDO_SMALL_ALEPH {}
  lemma ReadsHWithLine() ensures Translate(Unicode, UN_h_WITH_LINE) == PSEUDO_h_WITH_LINE {}
  lemma ReadsHWithBreve() ensures Translate(Unicode, UN_h_WITH_BREVE) == PSEUDO_h_WITH_BREVE {}
  lemma ReadsCapitalYod() ensures Translate(Unicode, UN_CAPITAL_YOD) == PSEUDO_CAPITAL_YOD {}
  lemma ReadsSmallYod() ensures Translate(Unicode, UN_SMALL_YOD) == PSEUDO_SMALL_YOD {}
  lemma ReadsH() ensures Translate(Unicode, ASC_h) == PSEUDO_h {}

  lemma SpellsI(f: ExportFlags) ensures ExportUnit(f, ASC_I) == Some([ASC_I]) {}
  lemma SpellsM(f: ExportFlags) ensures ExportUnit(f, PSEUDO_m) == Some([ASC_m]) {}
  lemma SpellsN(f: ExportFlags) ensures ExportUnit(f, PSEUDO_n) == Some([ASC_n]) {}
  lemma SpellsSmallY(f: ExportFlags) ensures ExportUnit(f, PSEUDO_y) == Some([ASC_y]) {}
  lemma SpellsSpace(f: ExportFlags) ensures ExportUnit(f, ASC_SPACE) == Some([ASC_SPACE]) {}
  lemma SpellsCapitalY(f: ExportFlags) ensures ExportUnit(f, PSEUDO_Y) == Some([ASC_Y]) {}
  lemma SpellsJ(f: ExportFlags) ensures ExportUnit(f, ASC_j) == Some([ASC_j]) {}
  lemma SpellsCapitalJ(f: ExportFlags) ensures ExportUnit(f, ASC_J) == Some([ASC_J]) {}
  lemma SpellsB(f: ExportFlags) ensures ExportUnit(f, PSEUDO_b) == Some([ASC_b]) {}
  lemma SpellsT(f: ExportFlags) ensures ExportUnit(f, PSEUDO_t) == Some([ASC_t]) {}

  lemma SpellsQ(f: ExportFlags)
    requires !f.jForYod
    ensures ExportUnit(f, PSEUDO_q) == Some([if f.kWithDot then UN_k_WITH_DOT else ASC_q])
  {
  }

  lemma SpellsCapitalQ(f: ExportFlags)
    requires !f.jForYod
    ensures ExportUnit(f, PSEUDO_Q) == Some([if f.kWithDot then UN_K_WITH_DOT else ASC_Q])
  {
  }

  lemma MacronBelowOnH()
    ensures Compose(UN_COMBINING_MACRON_BELOW, ASC_H) == Some(PSEUDO_H_WITH_LINE)
  {
  }

  // Steps of the scans, one unit at a time.

  /** A scan of the decoder's table that maps each unit to one unit. */
  lemma {:induction false} TranslateOneForOne(t: seq<int>, out: seq<int>, table: int -> int)
    requires |t| == |out|
    requires forall k :: 0 <= k < |t| ==> table(t[k]) == out[k] != 0
    ensures TranslateEach(t, table) == out
    decreases |t|
  {
    if t != [] {
      TranslateOneForOne(t[1..], out[1..], table);
      assert out == [out[0]] + out[1..];
    }
  }

  /** An export in which each unit is spelled as one unit. */
  lemma {:induction false} ExportOneForOne(t: seq<int>, out: seq<int>, spell: int -> Option<seq<int>>)
    requires |t| == |out|
    requires forall k :: 0 <= k < |t| ==> spell(t[k]) == Some([out[k]])
    ensures ExportRun(t, spell) == Text(out)
    decreases |t|
  {
    if t != [] {
      var n := |t| - 1;
      ExportOneForOne(t[..n], out[..n], spell);
      assert out == out[..n] + [out[n]];
    }
  }

  /** One unit of the decoder's scan that is neither a mark, nor before a
      mark, nor a j or J. */
  lemma DecodeStep(t: seq<int>, k: nat, table: int -> int)
    requires k < |t| && t[k] !in COMBINING_MARKS && !IsJ(t[k])
    requires k + 1 == |t| || t[k + 1] !in COMBINING_MARKS
    ensures DecodeRun(t[k..], table, NoYod) == Prepend(Emitted(table(t[k])), DecodeRun(t[k + 1..], table, NoYod))
  {
    assert t[k..][1..] == t[k + 1..];
  }

  lemma {:induction false} RespellAppend(a: seq<int>, b: seq<int>, c: int, repl: seq<int>)
    ensures Respell(a + b, c, repl) == Respell(a, c, repl) + Respell(b, c, repl)
    decreases |a|
  {
    if a == [] {
      assert a + b == b;
    } else {
      assert (a + b)[0] == a[0] && (a + b)[1..] == a[1..] + b;
      RespellAppend(a[1..], b, c, repl);
    }
  }

  lemma RespellPrefix(t: seq<int>, k: nat, a: int, repl: seq<int>)
    requires k < |t|
    ensures Respell(t[..k + 1], a, repl) == Respell(t[..k], a, repl) + (if t[k] == a then repl else [t[k]])
  {
    assert t[..k + 1] == t[..k] + [t[k]];
    RespellAppend(t[..k], [t[k]], a, repl);
    assert [t[k]][1..] == [];
  }

  // `lower`: "ꜤꜢH̱ḪH" lowered equals "ꜥꜣẖḫh" read from Unicode.

  const CAPITALS_TEXT: seq<int> :=
    [UN_CAPITAL_AIN, UN_CAPITAL_ALEPH, ASC_H, UN_COMBINING_MACRON_BELOW, UN_H_WITH_BREVE, ASC_H]
  const SMALLS_TEXT: seq<int> := [UN_SMALL_AIN, UN_SMALL_ALEPH, UN_h_WITH_LINE, UN_h_WITH_BREVE, ASC_h]
  const CAPITALS: seq<int> :=
    [PSEUDO_SMALL_AIN, PSEUDO_SMALL_ALEPH, PSEUDO_H_WITH_LINE, PSEUDO_H_WITH_BREVE, PSEUDO_H]
  const SMALLS: seq<int> :=
    [PSEUDO_SMALL_AIN, PSEUDO_SMALL_ALEPH, PSEUDO_h_WITH_LINE, PSEUDO_h_WITH_BREVE, PSEUDO_h]

  lemma CapitalsTailDecodes()
    ensures DecodeRun(CAPITALS_TEXT[4..], ImportTable(Unicode), NoYod) == Decoded(CAPITALS[3..])
  {
    var t, table, out := CAPITALS_TEXT[4..], ImportTable(Unicode), CAPITALS[3..];
    ReadsCapitalHWithBreve();
    ReadsCapitalH();
    DecodePlain(t, table);
    TranslateOneForOne(t, out, table);
  }

  lemma CapitalsMarkDecodes()
    ensures DecodeRun(CAPITALS_TEXT[2..], ImportTable(Unicode), NoYod) == Decoded(CAPITALS[2..])
  {
    var t, table := CAPITALS_TEXT, ImportTable(Unicode);
    CapitalsTailDecodes();
    MacronBelowOnH();
    assert t[3..][1..] == t[4..];
    assert DecodeRun(t[3..], table, NoYod) == DecodeRun(t[4..], table, NoYod);
    assert t[2..][1..] == t[3..];
    assert CAPITALS[2..] == [PSEUDO_H_WITH_LINE] + CAPITALS[3..];
  }

  /** The capital ain and aleph of Unicode already read as the small forms. */
  lemma CapitalsDecode()
    ensures FromUnicode(CAPITALS_TEXT) == Decoded(CAPITALS)
  {
    var t, table := CAPITALS_TEXT, ImportTable(Unicode);
    CapitalsMarkDecodes();
    ReadsCapitalAleph();
    ReadsCapitalAin();
    DecodeStep(t, 1, table);
    assert CAPITALS[1..] == [PSEUDO_SMALL_ALEPH] + CAPITALS[2..];
    DecodeStep(t, 0, table);
    assert CAPITALS == [PSEUDO_SMALL_AIN] + CAPITALS[1..];
    assert t[0..] == t;
  }

  lemma SmallsTranslate()
    ensures TranslateEach(SMALLS_TEXT, ImportTable(Unicode)) == SMALLS
  {
    var t, table, out := SMALLS_TEXT, ImportTable(Unicode), SMALLS;
    forall k | 0 <= k < |t|
      ensures table(t[k]) == out[k] != 0
    {
      if k == 0 { ReadsSmallAin(); }
      else if k == 1 { ReadsSmallAleph(); }
      else if k == 2 { ReadsHWithLine(); }
      else if k == 3 { ReadsHWithBreve(); }
      else { ReadsH(); }
    }
    TranslateOneForOne(t, out, table);
  }

  lemma SmallsDecode()
    ensures FromUnicode(SMALLS_TEXT) == Decoded(SMALLS)
  {
    DecodePlain(SMALLS_TEXT, ImportTable(Unicode));
    SmallsTranslate();
  }

  lemma LowerCaseVector()
    ensures FromUnicode(CAPITALS_TEXT).Decoded? && FromUnicode(SMALLS_TEXT).Decoded?
    ensures Lowered(FromUnicode(CAPITALS_TEXT).units) == FromUnicode(SMALLS_TEXT).units
  {
    CapitalsDecode();
    SmallsDecode();
    var l := Lowered(CAPITALS);
    assert l[0] == SMALLS[0] && l[1] == SMALLS[1] && l[2] == SMALLS[2];
    assert l[3] == SMALLS[3] && l[4] == SMALLS[4];
  }

  // `to_unicode` of "Imny Y", plain and with JJ_FOR_DOUBLE_YOD.

  const IMNY_TEXT: seq<int> := [ASC_I, ASC_m, ASC_n, ASC_y, ASC_SPACE, ASC_Y]
  const IMNY: seq<int> := [ASC_I, PSEUDO_m, PSEUDO_n, PSEUDO_y, ASC_SPACE, PSEUDO_Y]
  const IMNJJ: seq<int> := [ASC_I, PSEUDO_m, PSEUDO_n, ASC_j, ASC_j, ASC_SPACE, ASC_J, ASC_j]
  const IMNJJ_TEXT: seq<int> := [ASC_I, ASC_m, ASC_n, ASC_j, ASC_j, ASC_SPACE, ASC_J, ASC_j]

  lemma ImnyTranslates()
    ensures TranslateEach(IMNY_TEXT, ImportTable(Unicode)) == IMNY
  {
    var t, table, out := IMNY_TEXT, ImportTable(Unicode), IMNY;
    forall k | 0 <= k < |t|
      ensures table(t[k]) == out[k] != 0
    {
      if k == 0 { ReadsI(); }
      else if k == 1 { ReadsM(); }
      else if k == 2 { ReadsN(); }
      else if k == 3 { ReadsSmallY(); }
      else if k == 4 { ReadsSpace(); }
      else { ReadsCapitalY(); }
    }
    TranslateOneForOne(t, out, table);
  }

  lemma ImnyDecodes()
    ensures FromUnicode(IMNY_TEXT) == Decoded(IMNY)
  {
    DecodePlain(IMNY_TEXT, ImportTable(Unicode));
    ImnyTranslates();
  }

  lemma ImnyExports(f: ExportFlags)
    requires !f.jForYod
    ensures ExportRun(IMNY, Speller(f)) == Text(IMNY_TEXT)
  {
    var t, spell, out := IMNY, Speller(f), IMNY_TEXT;
    forall k | 0 <= k < |t|
      ensures spell(t[k]) == Some([out[k]])
    {
      if k == 0 { SpellsI(f); }
      else if k == 1 { SpellsM(f); }
      else if k == 2 { SpellsN(f); }
      else if k == 3 { SpellsSmallY(f); }
      else if k == 4 { SpellsSpace(f); }
      else { SpellsCapitalY(f); }
    }
    ExportOneForOne(t, out, spell);
  }

  lemma ImnjjExports(f: ExportFlags)
    requires !f.jForYod
    ensures ExportRun(IMNJJ, Speller(f)) == Text(IMNJJ_TEXT)
  {
    var t, spell, out := IMNJJ, Speller(f), IMNJJ_TEXT;
    forall k | 0 <= k < |t|
      ensures spell(t[k]) == Some([out[k]])
    {
      if k == 0 { SpellsI(f); }
      else if k == 1 { SpellsM(f); }
      else if k == 2 { SpellsN(f); }
      else if k == 3 || k == 4 || k == 7 { SpellsJ(f); }
      else if k == 5 { SpellsSpace(f); }
      else { SpellsCapitalJ(f); }
    }
    ExportOneForOne(t, out, spell);
  }

  /** A pass of `replace` that finds nothing leaves the text alone. */
  lemma {:induction false} RespellAbsent(t: seq<int>, a: int, repl: seq<int>)
    requires a !in t
    ensures Respell(t, a, repl) == t
    decreases |t|
  {
    if t != [] {
      RespellAbsent(t[1..], a, repl);
      assert t == [t[0]] + t[1..];
    }
  }

  /** A pass of `replace` on a text holding the unit once, at `k`. */
  lemma RespellOnce(t: seq<int>, k: nat, a: int, repl: seq<int>)
    requires k < |t| && t[k] == a && a !in t[..k] && a !in t[k + 1..]
    ensures Respell(t, a, repl) == t[..k] + repl + t[k + 1..]
  {
    assert t == t[..k] + ([a] + t[k + 1..]);
    RespellAppend(t[..k], [a] + t[k + 1..], a, repl);
    RespellAppend([a], t[k + 1..], a, repl);
    RespellAbsent(t[..k], a, repl);
    RespellAbsent(t[k + 1..], a, repl);
    assert [a][1..] == [];
  }

  /** The y to jj pass of JJ_FOR_DOUBLE_YOD on "Imny Y". */
  lemma SmallYodPass()
    ensures Respell(IMNY, PSEUDO_y, [ASC_j, ASC_j]) == IMNJJ[..6] + [PSEUDO_Y]
  {
    RespellOnce(IMNY, 3, PSEUDO_y, [ASC_j, ASC_j]);
    assert IMNY[..3] + [ASC_j, ASC_j] + IMNY[4..] == IMNJJ[..6] + [PSEUDO_Y];
  }

  /** The Y to Jj pass after it. */
  lemma CapitalYodPass()
    ensures Respell(IMNJJ[..6] + [PSEUDO_Y], PSEUDO_Y, [ASC_J, ASC_j]) == IMNJJ
  {
    var u := IMNJJ[..6] + [PSEUDO_Y];
    RespellOnce(u, 6, PSEUDO_Y, [ASC_J, ASC_j]);
    assert u[..6] + [ASC_J, ASC_j] + u[7..] == IMNJJ;
  }

  /** The whole pre-pass; the diaeresis passes find nothing. */
  lemma DoubleYodPrePass()
    ensures PrePass(IMNY, ExportFlags(false, false, true, false)) == IMNJJ
  {
    SmallYodPass();
    CapitalYodPass();
    RespellAbsent(IMNJJ, PSEUDO_I_WITH_DIAERESIS, [ASC_J, ASC_j]);
    RespellAbsent(IMNJJ, PSEUDO_i_WITH_DIAERESIS, [ASC_j, ASC_j]);
  }

  lemma DoubleYodFlags()
    ensures ExportFlagsOf(JJ_FOR_DOUBLE_YOD) == ExportFlags(false, false, true, false)
  {
  }

  lemma KWithDotFlags()
    ensures ExportFlagsOf(K_WITH_DOT) == ExportFlags(true, false, false, false)
  {
  }

  lemma ImnyToUnicode()
    ensures ToUnicodeOf(IMNY, ExportFlagsOf(0)) == Text(IMNY_TEXT)
  {
    NoExportFlags();
    ImnyExports(ExportFlags(false, false, false, false));
  }

  lemma ImnyToUnicodeDoubleYod()
    ensures ToUnicodeOf(IMNY, ExportFlagsOf(JJ_FOR_DOUBLE_YOD)) == Text(IMNJJ_TEXT)
  {
    var f := ExportFlags(false, false, true, false);
    DoubleYodFlags();
    DoubleYodPrePass();
    ImnjjExports(f);
  }

  /** "Imny Y" is exported unchanged, and as "Imnjj Jj" with JJ_FOR_DOUBLE_YOD. */
  lemma ExportDoubleYodVector()
    ensures FromUnicode(IMNY_TEXT) == Decoded(IMNY)
    ensures ToUnicodeOf(IMNY, ExportFlagsOf(0)) == Text(IMNY_TEXT)
    ensures ToUnicodeOf(IMNY, ExportFlagsOf(JJ_FOR_DOUBLE_YOD)) == Text(IMNJJ_TEXT)
  {
    ImnyDecodes();
    ImnyToUnicode();
    ImnyToUnicodeDoubleYod();
  }

  // `to_unicode` of "Ꞽmny Yꞽ", plain and with J_FOR_YOD and JJ_FOR_DOUBLE_YOD.

  const YOD_TEXT: seq<int> := [UN_CAPITAL_YOD, ASC_m, ASC_n, ASC_y, ASC_SPACE, ASC_Y, UN_SMALL_YOD]
  const YOD_UNITS: seq<int> :=
    [PSEUDO_CAPITAL_YOD, PSEUDO_m, PSEUDO_n, PSEUDO_y, ASC_SPACE, PSEUDO_Y, PSEUDO_SMALL_YOD]
  /** The units after the pre-pass of JJ_FOR_DOUBLE_YOD. */
  const YOD_DIGRAPHS: seq<int> :=
    [PSEUDO_CAPITAL_YOD, PSEUDO_m, PSEUDO_n, ASC_j, ASC_j, ASC_SPACE, ASC_J, ASC_j, PSEUDO_SMALL_YOD]
  const YOD_DIGRAPHS_TEXT: seq<int> := [ASC_J, ASC_m, ASC_n, ASC_j, ASC_j, ASC_SPACE, ASC_J, ASC_j, ASC_j]

  lemma YodTranslates()
    ensures TranslateEach(YOD_TEXT, ImportTable(Unicode)) == YOD_UNITS
  {
    var t, table, out := YOD_TEXT, ImportTable(Unicode), YOD_UNITS;
    forall k | 0 <= k < |t|
      ensures table(t[k]) == out[k] != 0
    {
      if k == 0 { ReadsCapitalYod(); }
      else if k == 1 { ReadsM(); }
      else if k == 2 { ReadsN(); }
      else if k == 3 { ReadsSmallY(); }
      else if k == 4 { ReadsSpace(); }
      else if k == 5 { ReadsCapitalY(); }
      else { ReadsSmallYod(); }
    }
    TranslateOneForOne(t, out, table);
  }

  lemma YodDecodes()
    ensures FromUnicode(YOD_TEXT) == Decoded(YOD_UNITS)
  {
    DecodePlain(YOD_TEXT, ImportTable(Unicode));
    YodTranslates();
  }

  lemma YodExports(f: ExportFlags)
    requires !f.jForYod
    ensures ExportRun(YOD_UNITS, Speller(f)) == Text(YOD_TEXT)
  {
    var t, spell, out := YOD_UNITS, Speller(f), YOD_TEXT;
    forall k | 0 <= k < |t|
      ensures spell(t[k]) == Some([out[k]])
    {
      if k == 0 || k == 6 { ExportOverrides(f); }
      else if k == 1 { SpellsM(f); }
      else if k == 2 { SpellsN(f); }
      else if k == 3 { SpellsSmallY(f); }
      else if k == 4 { SpellsSpace(f); }
      else { SpellsCapitalY(f); }
    }
    ExportOneForOne(t, out, spell);
  }

  lemma YodDigraphsExport(f: ExportFlags)
    requires f.jForYod
    ensures ExportRun(YOD_DIGRAPHS, Speller(f)) == Text(YOD_DIGRAPHS_TEXT)
  {
    var t, spell, out := YOD_DIGRAPHS, Speller(f), YOD_DIGRAPHS_TEXT;
    forall k | 0 <= k < |t|
      ensures spell(t[k]) == Some([out[k]])
    {
      if k == 0 || k == 8 { ExportOverrides(f); }
      else if k == 1 { SpellsM(f); }
      else if k == 2 { SpellsN(f); }
      else if k == 3 || k == 4 || k == 7 { SpellsJ(f); }
      else if k == 5 { SpellsSpace(f); }
      else { SpellsCapitalJ(f); }
    }
    ExportOneForOne(t, out, spell);
  }

  /** The y to jj pass on "Ꞽmny Yꞽ". */
  lemma YodSmallPass()
    ensures Respell(YOD_UNITS, PSEUDO_y, [ASC_j, ASC_j]) == YOD_DIGRAPHS[..6] + [PSEUDO_Y, PSEUDO_SMALL_YOD]
  {
    RespellOnce(YOD_UNITS, 3, PSEUDO_y, [ASC_j, ASC_j]);
    assert YOD_UNITS[..3] + [ASC_j, ASC_j] + YOD_UNITS[4..] == YOD_DIGRAPHS[..6] + [PSEUDO_Y, PSEUDO_SMALL_YOD];
  }

  /** The Y to Jj pass after it. */
  lemma YodCapitalPass()
    ensures Respell(YOD_DIGRAPHS[..6] + [PSEUDO_Y, PSEUDO_SMALL_YOD], PSEUDO_Y, [ASC_J, ASC_j]) == YOD_DIGRAPHS
  {
    var u := YOD_DIGRAPHS[..6] + [PSEUDO_Y, PSEUDO_SMALL_YOD];
    RespellOnce(u, 6, PSEUDO_Y, [ASC_J, ASC_j]);
    assert u[..6] + [ASC_J, ASC_j] + u[7..] == YOD_DIGRAPHS;
  }

  lemma YodPrePass()
    ensures PrePass(YOD_UNITS, ExportFlags(false, true, true, false)) == YOD_DIGRAPHS
  {
    YodSmallPass();
    YodCapitalPass();
    RespellAbsent(YOD_DIGRAPHS, PSEUDO_I_WITH_DIAERESIS, [ASC_J, ASC_j]);
    RespellAbsent(YOD_DIGRAPHS, PSEUDO_i_WITH_DIAERESIS, [ASC_j, ASC_j]);
  }

  lemma JForYodFlags()
    ensures ExportFlagsOf(J_FOR_YOD + JJ_FOR_DOUBLE_YOD) == ExportFlags(false, true, true, false)
  {
  }

  lemma YodToUnicode()
    ensures ToUnicodeOf(YOD_UNITS, ExportFlagsOf(0)) == Text(YOD_TEXT)
  {
    NoExportFlags();
    YodExports(ExportFlags(false, false, false, false));
  }

  lemma YodToUnicodeJForYod()
    ensures ToUnicodeOf(YOD_UNITS, ExportFlagsOf(J_FOR_YOD + JJ_FOR_DOUBLE_YOD)) == Text(YOD_DIGRAPHS_TEXT)
  {
    JForYodFlags();
    YodPrePass();
    YodDigraphsExport(ExportFlags(false, true, true, false));
  }

  /** "Ꞽmny Yꞽ" is exported unchanged, and as "Jmnjj Jjj" with J_FOR_YOD and
      JJ_FOR_DOUBLE_YOD: the yods become j and J, y and Y the digraphs. */
  lemma ExportJForYodVector()
    ensures FromUnicode(YOD_TEXT) == Decoded(YOD_UNITS)
    ensures ToUnicodeOf(YOD_UNITS, ExportFlagsOf(0)) == Text(YOD_TEXT)
    ensures ToUnicodeOf(YOD_UNITS, ExportFlagsOf(J_FOR_YOD + JJ_FOR_DOUBLE_YOD)) == Text(YOD_DIGRAPHS_TEXT)
  {
    YodDecodes();
    YodToUnicode();
    YodToUnicodeJForYod();
  }

  // `to_unicode` of "qnbt Qnbt", plain and with K_WITH_DOT.

  const QNBT_TEXT: seq<int> := [ASC_q, ASC_n, ASC_b, ASC_t, ASC_SPACE, ASC_Q, ASC_n, ASC_b, ASC_t]
  const QNBT: seq<int> := [PSEUDO_q, PSEUDO_n, PSEUDO_b, PSEUDO_t, ASC_SPACE, PSEUDO_Q, PSEUDO_n, PSEUDO_b, PSEUDO_t]
  const KNBT_TEXT: seq<int> :=
    [UN_k_WITH_DOT, ASC_n, ASC_b, ASC_t, ASC_SPACE, UN_K_WITH_DOT, ASC_n, ASC_b, ASC_t]

  lemma QnbtTranslates()
    ensures TranslateEach(QNBT_TEXT, ImportTable(Unicode)) == QNBT
  {
    var t, table, out := QNBT_TEXT, ImportTable(Unicode), QNBT;
    forall k | 0 <= k < |t|
      ensures table(t[k]) == out[k] != 0
    {
      if k == 0 { ReadsQ(); }
      else if k == 1 || k == 6 { ReadsN(); }
      else if k == 2 || k == 7 { ReadsB(); }
      else if k == 3 || k == 8 { ReadsT(); }
      else if k == 4 { ReadsSpace(); }
      else { ReadsCapitalQ(); }
    }
    TranslateOneForOne(t, out, table);
  }

  lemma QnbtDecodes()
    ensures FromUnicode(QNBT_TEXT) == Decoded(QNBT)
  {
    DecodePlain(QNBT_TEXT, ImportTable(Unicode));
    QnbtTranslates();
  }

  /** The spelling of "qnbt Qnbt" under flags without J_FOR_YOD. */
  function QnbtSpelling(f: ExportFlags): seq<int> {
    if f.kWithDot then KNBT_TEXT else QNBT_TEXT
  }

  lemma QnbtExports(f: ExportFlags)
    requires !f.jForYod
    ensures ExportRun(QNBT, Speller(f)) == Text(QnbtSpelling(f))
  {
    var t, spell, out := QNBT, Speller(f), QnbtSpelling(f);
    forall k | 0 <= k < |t|
      ensures spell(t[k]) == Some([out[k]])
    {
      if k == 0 { SpellsQ(f); }
      else if k == 1 || k == 6 { SpellsN(f); }
      else if k == 2 || k == 7 { SpellsB(f); }
      else if k == 3 || k == 8 { SpellsT(f); }
      else if k == 4 { SpellsSpace(f); }
      else { SpellsCapitalQ(f); }
    }
    ExportOneForOne(t, out, spell);
  }

  lemma ExportKWithDotVector()
    ensures FromUnicode(QNBT_TEXT) == Decoded(QNBT)
    ensures ToUnicodeOf(QNBT, ExportFlagsOf(0)) == Text(QNBT_TEXT)
    ensures ToUnicodeOf(QNBT, ExportFlagsOf(K_WITH_DOT)) == Text(KNBT_TEXT)
  {
    QnbtDecodes();
    NoExportFlags();
    QnbtExports(ExportFlags(false, false, false, false));
    KWithDotFlags();
    QnbtExports(ExportFlags(true, false, false, false));
  }
}
