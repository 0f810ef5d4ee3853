/**
 * Export followed by import: the Unicode spelling of a text of canonical units
 * decodes back to that text, for every unit the export table knows except
 * capital aleph and capital ain.
 */
module RoundTrip {
  import opened Options
  import opened Alphabet
  import opened Tables
  import opened Decoder
  import opened Encoder

  /** The units whose Unicode spelling decodes back to them: the keys of the
      export table except capital aleph and capital ain, whose code points the
      import table maps to the small forms. */
  predicate RoundTripKey(c: int) {
    UnicodeExport(c).Some? && c != PSEUDO_CAPITAL_ALEPH && c != PSEUDO_CAPITAL_AIN
  }

  predicate AllKeys(xs: seq<int>) {
    forall k :: 0 <= k < |xs| ==> RoundTripKey(xs[k])
  }

  /** A spelling the decoder reads back as `c`: one code point `table` maps to
      `c`, or a base and a mark that compose to `c`. Its
      first code point is neither a mark nor a j or J, so it never joins the
      spelling before it. */
  predicate ReadsBackAs(u: seq<int>, c: int, table: int -> int) {
    && c != 0
    && 1 <= |u| <= 2
    && u[0] !in COMBINING_MARKS && !IsJ(u[0])
    && (|u| == 1 ==> table(u[0]) == c)
    && (|u| == 2 ==> u[1] in COMBINING_MARKS && Compose(u[1], u[0]) == Some(c))
  }

  /** Every key of the two-unit table is a key of the export table too. */
  lemma MulticharKeysAreExportKeys(c: int)
    requires c in UNICODE_EXPORT_MULTICHAR
    ensures RoundTripKey(c)
  {
  }

  /** The spelling of a two-unit key composes back to it. */
  lemma MulticharReadsBack(c: int)
    requires c in UNICODE_EXPORT_MULTICHAR
    ensures ReadsBackAs(UNICODE_EXPORT_MULTICHAR[c], c, ImportTable(Unicode))
  {
  }

  /** The K_WITH_DOT spellings of q and Q decode back to them. */
  lemma KWithDotReadsBack(c: int)
    requires c in UNICODE_EXPORT_K_WITH_DOT
    ensures ReadsBackAs([UNICODE_EXPORT_K_WITH_DOT[c]], c, ImportTable(Unicode))
  {
  }

  /** The export table's code point of a key decodes back to it. */
  lemma ExportTableReadsBack(c: int)
    requires RoundTripKey(c)
    ensures ReadsBackAs([UnicodeExport(c).value], c, ImportTable(Unicode))
  {
    if c < PSEUDO_TOP_LEFT_HALF_BRACKET {
      PunctuationReadBack(c);
    } else if c < PSEUDO_CAPITAL_ALEPH {
      BracketsReadBack(c);
    } else if c < PSEUDO_E {
      AlephAndYodReadBack(c);
    } else if c < PSEUDO_I_WITH_DIAERESIS {
      EAndYReadBack(c);
    } else if c < PSEUDO_RIGHT_HALF_RING {
      IVariantsReadBack(c);
    } else if c < PSEUDO_W {
      HalfRingAndAinReadBack(c);
    } else if c < PSEUDO_B {
      WAndUReadBack(c);
    } else if c < PSEUDO_F {
      BAndPReadBack(c);
    } else if c < PSEUDO_N {
      FAndMReadBack(c);
    } else if c < PSEUDO_L {
      NAndRReadBack(c);
    } else if c < PSEUDO_H_WITH_DOT {
      LAndHReadBack(c);
    } else if c < PSEUDO_H_WITH_CURCUMFLEX {
      DottedAndBreveHReadBack(c);
    } else if c < PSEUDO_Z {
      CircumflexAndLinedHReadBack(c);
    } else if c < PSEUDO_S_WITH_CARON {
      ZAndSReadBack(c);
    } else if c < PSEUDO_K {
      CaronSAndQReadBack(c);
    } else if c < PSEUDO_T {
      KAndGReadBack(c);
    } else if c < PSEUDO_T_WITH_LINE {
      TAndCircumflexTReadBack(c);
    } else if c < PSEUDO_D {
      LinedTReadBack(c);
    } else {
      DAndLinedDReadBack(c);
    }
  }

  // The cases of `ExportTableReadsBack`, a few keys at a time.

  lemma PunctuationReadBack(c: int)
    requires RoundTripKey(c) && c < PSEUDO_TOP_LEFT_HALF_BRACKET
    ensures ReadsBackAs([UnicodeExport(c).value], c, ImportTable(Unicode))
  {
  }

  lemma BracketsReadBack(c: int)
    requires RoundTripKey(c) && PSEUDO_TOP_LEFT_HALF_BRACKET <= c < PSEUDO_CAPITAL_ALEPH
    ensures ReadsBackAs([UnicodeExport(c).value], c, ImportTable(Unicode))
  {
  }

  lemma AlephAndYodReadBack(c: int)
    requires RoundTripKey(c) && PSEUDO_CAPITAL_ALEPH <= c < PSEUDO_E
    ensures ReadsBackAs([UnicodeExport(c).value], c, ImportTable(Unicode))
  {
  }

  lemma EAndYReadBack(c: int)
    requires RoundTripKey(c) && PSEUDO_E <= c < PSEUDO_I_WITH_DIAERESIS
    ensures ReadsBackAs([UnicodeExport(c).value], c, ImportTable(Unicode))
  {
  }

  lemma IVariantsReadBack(c: int)
    requires RoundTripKey(c) && PSEUDO_I_WITH_DIAERESIS <= c < PSEUDO_RIGHT_HALF_RING
    ensures ReadsBackAs([UnicodeExport(c).value], c, ImportTable(Unicode))
  {
  }

  lemma HalfRingAndAinReadBack(c: int)
    requires RoundTripKey(c) && PSEUDO_RIGHT_HALF_RING <= c < PSEUDO_W
    ensures ReadsBackAs([UnicodeExport(c).value], c, ImportTable(Unicode))
  {
  }

  lemma WAndUReadBack(c: int)
    requires RoundTripKey(c) && PSEUDO_W <= c < PSEUDO_B
    ensures ReadsBackAs([UnicodeExport(c).value], c, ImportTable(Unicode))
  {
  }

  lemma BAndPReadBack(c: int)
    requires RoundTripKey(c) && PSEUDO_B <= c < PSEUDO_F
    ensures ReadsBackAs([UnicodeExport(c).value], c, ImportTable(Unicode))
  {
  }

  lemma FAndMReadBack(c: int)
    requires RoundTripKey(c) && PSEUDO_F <= c < PSEUDO_N
    ensures ReadsBackAs([UnicodeExport(c).value], c, ImportTable(Unicode))
  {
  }

  lemma NAndRReadBack(c: int)
    requires RoundTripKey(c) && PSEUDO_N <= c < PSEUDO_L
    ensures ReadsBackAs([UnicodeExport(c).value], c, ImportTable(Unicode))
  {
  }

  lemma LAndHReadBack(c: int)
    requires RoundTripKey(c) && PSEUDO_L <= c < PSEUDO_H_WITH_DOT
    ensures ReadsBackAs([UnicodeExport(c).value], c, ImportTable(Unicode))
  {
  }

  lemma DottedAndBreveHReadBack(c: int)
    requires RoundTripKey(c) && PSEUDO_H_WITH_DOT <= c < PSEUDO_H_WITH_CURCUMFLEX
    ensures ReadsBackAs([UnicodeExport(c).value], c, ImportTable(Unicode))
  {
  }

  lemma CircumflexAndLinedHReadBack(c: int)
    requires RoundTripKey(c) && PSEUDO_H_WITH_CURCUMFLEX <= c < PSEUDO_Z
    ensures ReadsBackAs([UnicodeExport(c).value], c, ImportTable(Unicode))
  {
  }

  lemma ZAndSReadBack(c: int)
    requires RoundTripKey(c) && PSEUDO_Z <= c < PSEUDO_S_WITH_CARON
    ensures ReadsBackAs([UnicodeExport(c).value], c, ImportTable(Unicode))
  {
  }

  lemma CaronSAndQReadBack(c: int)
    requires RoundTripKey(c) && PSEUDO_S_WITH_CARON <= c < PSEUDO_K
    ensures ReadsBackAs([UnicodeExport(c).value], c, ImportTable(Unicode))
  {
  }

  lemma KAndGReadBack(c: int)
    requires RoundTripKey(c) && PSEUDO_K <= c < PSEUDO_T
    ensures ReadsBackAs([UnicodeExport(c).value], c, ImportTable(Unicode))
  {
  }

  lemma TAndCircumflexTReadBack(c: int)
    requires RoundTripKey(c) && PSEUDO_T <= c < PSEUDO_T_WITH_LINE
    ensures ReadsBackAs([UnicodeExport(c).value], c, ImportTable(Unicode))
  {
  }

  lemma LinedTReadBack(c: int)
    requires RoundTripKey(c) && PSEUDO_T_WITH_LINE <= c < PSEUDO_D
    ensures ReadsBackAs([UnicodeExport(c).value], c, ImportTable(Unicode))
  {
  }

  lemma DAndLinedDReadBack(c: int)
    requires RoundTripKey(c) && PSEUDO_D <= c < PSEUDO_d_WITH_LINE + 1
    ensures ReadsBackAs([UnicodeExport(c).value], c, ImportTable(Unicode))
  {
  }

  /** Without J_FOR_YOD, every key is spelled by code points that read back as it. */
  lemma KeyReadsBack(f: ExportFlags, c: int)
    requires !f.jForYod && RoundTripKey(c)
    ensures ExportUnit(f, c).Some? && ReadsBackAs(ExportUnit(f, c).value, c, ImportTable(Unicode))
  {
    if c in UNICODE_EXPORT_MULTICHAR {
      MulticharReadsBack(c);
    } else if f.kWithDot && c in UNICODE_EXPORT_K_WITH_DOT {
      KWithDotReadsBack(c);
    } else {
      ExportTableReadsBack(c);
    }
  }

  /** The export of a text with a unit put in front: that unit's spelling, then
      the export of the rest. */
  lemma {:induction false} ExportRunCons(c: int, ys: seq<int>, spell: int -> Option<seq<int>>)
    requires spell(c).Some? && ExportRun(ys, spell).Text?
    ensures ExportRun([c] + ys, spell) == Text(spell(c).value + ExportRun(ys, spell).units)
    decreases |ys|
  {
    var t := [c] + ys;
    if ys == [] {
      assert t[..|t| - 1] == [];
    } else {
      var init := ys[..|ys| - 1];
      assert t[..|t| - 1] == [c] + init;
      assert t[|t| - 1] == ys[|ys| - 1];
      ExportRunCons(c, init, spell);
      var u := spell(c).value;
      var last := spell(ys[|ys| - 1]).value;
      assert (u + ExportRun(init, spell).units) + last == u + (ExportRun(init, spell).units + last);
    }
  }

  /** Every unit of `xs` has a spelling that reads back as it through `table`. */
  ghost predicate ReadBackSpellings(xs: seq<int>, spell: int -> Option<seq<int>>, table: int -> int) {
    forall k :: 0 <= k < |xs| ==> spell(xs[k]).Some? && ReadsBackAs(spell(xs[k]).value, xs[k], table)
  }

  /** The decoder reads a spelling followed by text that cannot join it as the
      spelled unit, then goes on with that text. */
  lemma SpellingStep(u: seq<int>, c: int, tail: seq<int>, table: int -> int)
    requires ReadsBackAs(u, c, table)
    requires tail != [] ==> tail[0] !in COMBINING_MARKS && !IsJ(tail[0])
    ensures DecodeRun(u + tail, table, NoYod) == Prepend([c], DecodeRun(tail, table, NoYod))
  {
    var t := u + tail;
    var after := if |tail| > 0 then tail[0] else 0;
    if |u| == 1 {
      assert t[1..] == tail;
      assert ImportChar(t[0], after, table, NoYod) == Emit(c, NoYod);
    } else {
      var mark := u[1];
      assert t[1..] == [mark] + tail && ([mark] + tail)[1..] == tail;
      assert ImportChar(t[0], mark, table, NoYod) == Emit(c, NoYod);
      assert ImportChar(mark, after, table, NoYod) == Emit(0, NoYod);
      assert DecodeRun([mark] + tail, table, NoYod) == DecodeRun(tail, table, NoYod);
    }
  }

  /** A text whose units all have read-back spellings exports without failure,
      and the decoder reads the export back as the text. */
  lemma {:induction false} SpellingsReadBack(xs: seq<int>, spell: int -> Option<seq<int>>, table: int -> int)
    requires ReadBackSpellings(xs, spell, table)
    ensures ExportRun(xs, spell).Text?
    ensures xs != [] ==> |ExportRun(xs, spell).units| > 0 && ExportRun(xs, spell).units[0] == spell(xs[0]).value[0]
    ensures DecodeRun(ExportRun(xs, spell).units, table, NoYod) == Decoded(xs)
    decreases |xs|
  {
    if xs != [] {
      var c := xs[0];
      var rest := xs[1..];
      assert ReadBackSpellings(rest, spell, table) by {
        forall k | 0 <= k < |rest| ensures spell(rest[k]).Some? && ReadsBackAs(spell(rest[k]).value, rest[k], table) {
          assert rest[k] == xs[k + 1];
        }
      }
      SpellingsReadBack(rest, spell, table);
      assert xs == [c] + rest;
      ExportRunCons(c, rest, spell);
      var u := spell(c).value;
      assert ReadsBackAs(u, c, table);
      if rest != [] {
        assert ReadsBackAs(spell(rest[0]).value, rest[0], table);
      }
      SpellingStep(u, c, ExportRun(rest, spell).units, table);
    }
  }

  /** Exporting a text of keys to Unicode without J_FOR_YOD, under any other
      flags, and importing the result gives back the text. */
  lemma ExportThenImport(xs: seq<int>, f: ExportFlags)
    requires !f.jForYod && AllKeys(xs)
    ensures Export(xs, Unicode, f).Text?
    ensures FromUnicode(Export(xs, Unicode, f).units) == Decoded(xs)
  {
    assert ReadBackSpellings(xs, Speller(f), ImportTable(Unicode)) by {
      forall k | 0 <= k < |xs|
        ensures Speller(f)(xs[k]).Some? && ReadsBackAs(Speller(f)(xs[k]).value, xs[k], ImportTable(Unicode))
      {
        KeyReadsBack(f, xs[k]);
      }
    }
    SpellingsReadBack(xs, Speller(f), ImportTable(Unicode));
  }

  /** `from_unicode(export_unicode(x)) == x` for every text of keys. */
  lemma ExportUnicodeRoundTrip(xs: seq<int>)
    requires AllKeys(xs)
    ensures ExportUnicode(xs).Text? && FromUnicode(ExportUnicode(xs).units) == Decoded(xs)
  {
    NoExportFlags();
    ExportThenImport(xs, ExportFlagsOf(0));
  }

  // ----- where the round trip stops -----

  /** Capital aleph comes back as small aleph. */
  lemma CapitalAlephComesBackSmall()
    ensures ExportUnicode([PSEUDO_CAPITAL_ALEPH]) == Text([UN_CAPITAL_ALEPH])
    ensures FromUnicode([UN_CAPITAL_ALEPH]) == Decoded([PSEUDO_SMALL_ALEPH])
  {
    NoExportFlags();
    CapitalsSpelling();
    TablePrecedence();
    SingleUnitExport(PSEUDO_CAPITAL_ALEPH, ExportFlagsOf(0));
    SingleUnitImport(UN_CAPITAL_ALEPH, ImportTable(Unicode));
  }

  /** Capital ain comes back as small ain. */
  lemma CapitalAinComesBackSmall()
    ensures ExportUnicode([PSEUDO_CAPITAL_AIN]) == Text([UN_CAPITAL_AIN])
    ensures FromUnicode([UN_CAPITAL_AIN]) == Decoded([PSEUDO_SMALL_AIN])
  {
    NoExportFlags();
    CapitalsSpelling();
    TablePrecedence();
    SingleUnitExport(PSEUDO_CAPITAL_AIN, ExportFlagsOf(0));
    SingleUnitImport(UN_CAPITAL_AIN, ImportTable(Unicode));
  }

  /** With J_FOR_YOD two small yods are spelled "jj", which the decoder reads
      as the digraph for y. */
  lemma JForYodMergesYods()
    ensures Export([PSEUDO_SMALL_YOD, PSEUDO_SMALL_YOD], Unicode, ExportFlagsOf(J_FOR_YOD)) == Text([ASC_j, ASC_j])
    ensures FromUnicode([ASC_j, ASC_j]) == Decoded([PSEUDO_y])
  {
    JForYodSpelling();
    var f := ExportFlagsOf(J_FOR_YOD);
    var t := [PSEUDO_SMALL_YOD, PSEUDO_SMALL_YOD];
    assert t[..1] == [PSEUDO_SMALL_YOD] && t[..1][..0] == [];
    assert ExportRun(t[..1], Speller(f)) == Text([ASC_j]);
    assert ExportRun(t, Speller(f)) == Text([ASC_j] + [ASC_j]);
    YodDigraphs(Unicode);
  }

  // Table lookups for the examples above.

  lemma CapitalsSpelling()
    ensures ExportUnit(ExportFlags(false, false, false, false), PSEUDO_CAPITAL_ALEPH) == Some([UN_CAPITAL_ALEPH])
    ensures ExportUnit(ExportFlags(false, false, false, false), PSEUDO_CAPITAL_AIN) == Some([UN_CAPITAL_AIN])
  {
  }

  lemma JForYodSpelling()
    ensures ExportFlagsOf(J_FOR_YOD) == ExportFlags(false, true, false, false)
    ensures ExportUnit(ExportFlags(false, true, false, false), PSEUDO_SMALL_YOD) == Some([ASC_j])
  {
  }

  // Single-unit texts, for the examples above.

  lemma SingleUnitExport(c: int, f: ExportFlags)
    requires ExportUnit(f, c).Some?
    ensures Export([c], Unicode, f) == Text(ExportUnit(f, c).value)
  {
    var u := ExportUnit(f, c).value;
    assert [c][..0] == [] && [c][0] == c;
    assert Speller(f)(c) == Some(u);
    assert ExportRun([], Speller(f)) == Text([]);
    assert ExportRun([c], Speller(f)) == Text([] + u);
    assert [] + u == u;
  }

  lemma SingleUnitImport(u: int, table: int -> int)
    requires u !in COMBINING_MARKS && u != 0 && table(u) != 0
    ensures DecodeRun([u], table, NoYod) == Decoded([table(u)])
  {
    assert ImportChar(u, 0, table, NoYod) == Emit(table(u), NoYod);
  }
}
