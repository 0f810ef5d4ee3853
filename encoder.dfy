/**
 * The encoder (`export_string`) and `UmschString.to_unicode`: every canonical
 * unit becomes its Unicode spelling, a base letter with a combining mark where
 * the multi-character table has one, the export table's value otherwise, and
 * the unit itself as a code point when no table knows it.
 */
module Encoder {
  import opened Options
  import opened Alphabet
  import opened Tables
  import opened UmschStrings

  /** The bits of the `UmExport` flag set. */
  const K_WITH_DOT: nat := 1
  const J_FOR_YOD: nat := 2
  const JJ_FOR_DOUBLE_YOD: nat := 4
  const SUPRESS_I_WITH_DIAERESIS: nat := 8

  datatype ExportFlags = ExportFlags(kWithDot: bool, jForYod: bool, jjForDoubleYod: bool, suppressIWithDiaeresis: bool)

  function ExportFlagsOf(flags: nat): ExportFlags {
    ExportFlags(HasFlag(flags, K_WITH_DOT), HasFlag(flags, J_FOR_YOD),
                HasFlag(flags, JJ_FOR_DOUBLE_YOD), HasFlag(flags, SUPRESS_I_WITH_DIAERESIS))
  }

  /** No flag set: the plain export. */
  lemma NoExportFlags()
    ensures ExportFlagsOf(0) == ExportFlags(false, false, false, false)
  {
  }

  /** The largest value `chr` accepts. */
  const MAX_CODE_POINT: int := 0x10FFFF

  /** What `export_string` returns: the code points of the text, the ValueError
      of `chr` for a unit that is no code point, or the KeyError of a format
      without export tables. */
  datatype Exported = Text(units: seq<int>) | NotACodePoint(unit: int) | NoExportTable

  /** `export_dict` after the updates the flags ask for. */
  function ExportEntry(f: ExportFlags, c: int): Option<int> {
    if f.jForYod && c in UNICODE_EXPORT_J_FOR_YOD then Some(UNICODE_EXPORT_J_FOR_YOD[c])
    else if f.kWithDot && c in UNICODE_EXPORT_K_WITH_DOT then Some(UNICODE_EXPORT_K_WITH_DOT[c])
    else UnicodeExport(c)
  }

  /** The spelling of one unit, or `None` when `chr` rejects it. */
  function ExportUnit(f: ExportFlags, c: int): Option<seq<int>> {
    if c in UNICODE_EXPORT_MULTICHAR then Some(UNICODE_EXPORT_MULTICHAR[c])
    else match ExportEntry(f, c)
      case Some(v) => Some([v])
      case None => if 0 <= c <= MAX_CODE_POINT then Some([c]) else None
  }

  /** `ExportUnit` under fixed flags, as a lookup. */
  function Speller(f: ExportFlags): int -> Option<seq<int>> {
    c => ExportUnit(f, c)
  }

  /** The loop of `export_string` over the units of `t`, spelling each with
      `spell`; it stops at the first unit without a spelling. */
  function ExportRun(t: seq<int>, spell: int -> Option<seq<int>>): Exported
    decreases |t|
  {
    if t == [] then Text([])
    else
      var last := t[|t| - 1];
      match ExportRun(t[..|t| - 1], spell)
      case Text(done) =>
        (match spell(last)
         case Some(u) => Text(done + u)
         case None => NotACodePoint(last))
      case failed => failed
  }

  /** What `export_string(input, format, flags)` returns; an empty input is
      answered before the format's tables are looked up. */
  function Export(input: seq<int>, format: Format, f: ExportFlags): Exported {
    if input == [] then Text([])
    else if format != Unicode then NoExportTable
    else ExportRun(input, Speller(f))
  }

  /** `export_unicode`. */
  function ExportUnicode(input: seq<int>): Exported {
    Export(input, Unicode, ExportFlagsOf(0))
  }

  /** `export_string`. */
  method ExportString(input: seq<int>, format: Format, flags: nat) returns (r: Exported)
    ensures r == Export(input, format, ExportFlagsOf(flags))
  {
    if |input| == 0 {
      return Text([]);
    }
    if format != Unicode {
      return NoExportTable;
    }
    r := ExportWith(input, ExportFlagsOf(flags));
  }

  /** The loop of `export_string` under decoded flags. */
  method ExportWith(input: seq<int>, f: ExportFlags) returns (r: Exported)
    ensures r == ExportRun(input, Speller(f))
  {
    var res: seq<int> := [];
    for i := 0 to |input|
      invariant ExportRun(input[..i], Speller(f)) == Text(res)
    {
      var c := input[i];
      assert input[..i + 1][..i] == input[..i];
      if c in UNICODE_EXPORT_MULTICHAR {
        res := res + UNICODE_EXPORT_MULTICHAR[c];
      } else if f.jForYod && c in UNICODE_EXPORT_J_FOR_YOD {
        res := res + [UNICODE_EXPORT_J_FOR_YOD[c]];
      } else if f.kWithDot && c in UNICODE_EXPORT_K_WITH_DOT {
        res := res + [UNICODE_EXPORT_K_WITH_DOT[c]];
      } else if UnicodeExport(c).Some? {
        res := res + [UnicodeExport(c).value];
      } else if 0 <= c <= MAX_CODE_POINT {
        res := res + [c];
      } else {
        ExportRunStaysFailed(input, i + 1, Speller(f));
        return NotACodePoint(c);
      }
    }
    assert input[..|input|] == input;
    r := Text(res);
  }

  /** Once the export of a prefix has failed, the export of the whole fails
      the same way. */
  lemma {:induction false} ExportRunStaysFailed(t: seq<int>, i: nat, spell: int -> Option<seq<int>>)
    requires i <= |t| && !ExportRun(t[..i], spell).Text?
    ensures ExportRun(t, spell) == ExportRun(t[..i], spell)
    decreases |t| - i
  {
    if i < |t| {
      assert t[..i + 1][..i] == t[..i];
      ExportRunStaysFailed(t, i + 1, spell);
    } else {
      assert t[..i] == t;
    }
  }

  // ----- to_unicode -----

  /** The rewriting `to_unicode` does before the export: ï and Ï become y and Y
      for SUPRESS_I_WITH_DIAERESIS, then y, Y, ï and Ï become the digraphs jj
      and Jj for JJ_FOR_DOUBLE_YOD. */
  function PrePass(s: seq<int>, f: ExportFlags): seq<int> {
    var t := if f.suppressIWithDiaeresis then
      Respell(Respell(s, PSEUDO_I_WITH_DIAERESIS, [PSEUDO_Y]), PSEUDO_i_WITH_DIAERESIS, [PSEUDO_y])
    else s;
    if f.jjForDoubleYod then
      Respell(Respell(Respell(Respell(t, PSEUDO_y, [ASC_j, ASC_j]), PSEUDO_Y, [ASC_J, ASC_j]),
                      PSEUDO_I_WITH_DIAERESIS, [ASC_J, ASC_j]), PSEUDO_i_WITH_DIAERESIS, [ASC_j, ASC_j])
    else t
  }

  /** What `to_unicode(flags)` returns. */
  function ToUnicodeOf(s: seq<int>, f: ExportFlags): Exported {
    Export(PrePass(s, f), Unicode, f)
  }

  /** `to_unicode`: a copy rewritten with `replace`, then exported. */
  method ToUnicode(s: seq<int>, flags: nat) returns (r: Exported)
    ensures r == ToUnicodeOf(s, ExportFlagsOf(flags))
  {
    var f := ExportFlagsOf(flags);
    var copy := s;
    if f.suppressIWithDiaeresis {
      copy := RespellUnit(copy, PSEUDO_I_WITH_DIAERESIS, [PSEUDO_Y]);
      copy := RespellUnit(copy, PSEUDO_i_WITH_DIAERESIS, [PSEUDO_y]);
    }
    if f.jjForDoubleYod {
      copy := RespellUnit(copy, PSEUDO_y, [ASC_j, ASC_j]);
      copy := RespellUnit(copy, PSEUDO_Y, [ASC_J, ASC_j]);
      copy := RespellUnit(copy, PSEUDO_I_WITH_DIAERESIS, [ASC_J, ASC_j]);
      copy := RespellUnit(copy, PSEUDO_i_WITH_DIAERESIS, [ASC_j, ASC_j]);
    }
    r := ExportString(copy, Unicode, flags);
  }

  /** One `replace` of a single unit, as `to_unicode` calls it. */
  method RespellUnit(s: seq<int>, a: int, repl: seq<int>) returns (r: seq<int>)
    ensures r == Respell(s, a, repl)
  {
    r := Replace(s, [a], repl, None);
    ReplaceOneUnit(s, a, repl);
  }

  // ----- properties -----

  /** A respelling leaves no occurrence of the unit it replaces, unless the
      replacement holds that unit again. */
  lemma {:induction false} RespellRemoves(t: seq<int>, a: int, repl: seq<int>)
    requires a !in repl
    ensures a !in Respell(t, a, repl)
    ensures forall c :: c != a && c !in repl ==> (c in Respell(t, a, repl) <==> c in t)
    decreases |t|
  {
    if t != [] {
      RespellRemoves(t[1..], a, repl);
      assert t == [t[0]] + t[1..];
    }
  }

  /** After the pre-pass of SUPRESS_I_WITH_DIAERESIS no ï or Ï is left, and
      after that of JJ_FOR_DOUBLE_YOD no y, Y, ï or Ï is left. */
  lemma PrePassRemoves(s: seq<int>, f: ExportFlags)
    ensures f.suppressIWithDiaeresis || f.jjForDoubleYod ==>
      PSEUDO_i_WITH_DIAERESIS !in PrePass(s, f) && PSEUDO_I_WITH_DIAERESIS !in PrePass(s, f)
    ensures f.jjForDoubleYod ==> PSEUDO_y !in PrePass(s, f) && PSEUDO_Y !in PrePass(s, f)
    ensures !f.suppressIWithDiaeresis && !f.jjForDoubleYod ==> PrePass(s, f) == s
  {
    var t := s;
    if f.suppressIWithDiaeresis {
      var t1 := Respell(s, PSEUDO_I_WITH_DIAERESIS, [PSEUDO_Y]);
      RespellRemoves(s, PSEUDO_I_WITH_DIAERESIS, [PSEUDO_Y]);
      t := Respell(t1, PSEUDO_i_WITH_DIAERESIS, [PSEUDO_y]);
      RespellRemoves(t1, PSEUDO_i_WITH_DIAERESIS, [PSEUDO_y]);
    }
    if f.jjForDoubleYod {
      var u1 := Respell(t, PSEUDO_y, [ASC_j, ASC_j]);
      RespellRemoves(t, PSEUDO_y, [ASC_j, ASC_j]);
      var u2 := Respell(u1, PSEUDO_Y, [ASC_J, ASC_j]);
      RespellRemoves(u1, PSEUDO_Y, [ASC_J, ASC_j]);
      var u3 := Respell(u2, PSEUDO_I_WITH_DIAERESIS, [ASC_J, ASC_j]);
      RespellRemoves(u2, PSEUDO_I_WITH_DIAERESIS, [ASC_J, ASC_j]);
      RespellRemoves(u3, PSEUDO_i_WITH_DIAERESIS, [ASC_j, ASC_j]);
    }
  }

  /** Every unit is spelled by one or two code points. */
  lemma ExportUnitShape(f: ExportFlags, c: int)
    ensures ExportUnit(f, c).Some? ==> 1 <= |ExportUnit(f, c).value| <= 2
    ensures ExportUnit(f, c).None? <==> !(0 <= c <= MAX_CODE_POINT)
  {
  }

  /** The export fails exactly when some unit is no code point, and then names
      the first such unit; otherwise each unit is spelled by one or two code
      points. */
  lemma {:induction false} ExportRunShape(t: seq<int>, f: ExportFlags)
    ensures ExportRun(t, Speller(f)).NoExportTable? == false
    ensures ExportRun(t, Speller(f)).NotACodePoint? <==> exists k :: 0 <= k < |t| && !(0 <= t[k] <= MAX_CODE_POINT)
    ensures ExportRun(t, Speller(f)).NotACodePoint? ==>
      exists k :: (0 <= k < |t| && t[k] == ExportRun(t, Speller(f)).unit && !(0 <= t[k] <= MAX_CODE_POINT) &&
                   forall j :: 0 <= j < k ==> 0 <= t[j] <= MAX_CODE_POINT)
    ensures ExportRun(t, Speller(f)).Text? ==> |t| <= |ExportRun(t, Speller(f)).units| <= 2 * |t|
    decreases |t|
  {
    if t != [] {
      var init := t[..|t| - 1];
      ExportRunShape(init, f);
      ExportUnitShape(f, t[|t| - 1]);
      assert forall k :: 0 <= k < |init| ==> init[k] == t[k];
      if ExportRun(init, Speller(f)).NotACodePoint? {
        var k :| 0 <= k < |init| && init[k] == ExportRun(init, Speller(f)).unit &&
          !(0 <= init[k] <= MAX_CODE_POINT) && forall j :: 0 <= j < k ==> 0 <= init[j] <= MAX_CODE_POINT;
        assert t[k] == ExportRun(t, Speller(f)).unit;
      }
    }
  }

  /** The export of two texts one after the other is the export of the first
      followed by that of the second: every unit is spelled on its own, in
      order. */
  lemma {:induction false} ExportRunAppend(a: seq<int>, b: seq<int>, spell: int -> Option<seq<int>>)
    requires ExportRun(a, spell).Text? && ExportRun(b, spell).Text?
    ensures ExportRun(a + b, spell) == Text(ExportRun(a, spell).units + ExportRun(b, spell).units)
    decreases |b|
  {
    if b == [] {
      assert a + b == a;
    } else {
      var init := b[..|b| - 1];
      var last := b[|b| - 1];
      assert (a + b)[..|a + b| - 1] == a + init;
      assert (a + b)[|a + b| - 1] == last;
      ExportRunAppend(a, init, spell);
      var u := spell(last).value;
      assert (ExportRun(a, spell).units + ExportRun(init, spell).units) + u ==
        ExportRun(a, spell).units + (ExportRun(init, spell).units + u);
    }
  }

  /** The override tables: K_WITH_DOT spells q and Q with a dot below, J_FOR_YOD
      spells the yods as j and J; other flags leave those units alone. */
  lemma ExportOverrides(f: ExportFlags)
    ensures ExportUnit(f, PSEUDO_q) == Some([if f.kWithDot then UN_k_WITH_DOT else ASC_q])
    ensures ExportUnit(f, PSEUDO_Q) == Some([if f.kWithDot then UN_K_WITH_DOT else ASC_Q])
    ensures ExportUnit(f, PSEUDO_SMALL_YOD) == Some([if f.jForYod then ASC_j else UN_SMALL_YOD])
    ensures ExportUnit(f, PSEUDO_CAPITAL_YOD) == Some([if f.jForYod then ASC_J else UN_CAPITAL_YOD])
  {
  }
}
