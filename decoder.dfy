/**
 * The decoder (`import_string` / `_import_char`): a left-to-right scan with one
 * unit of lookahead. A unit followed by a combining mark composes with it, a
 * combining mark on its own is skipped, the `jj` digraph collapses to `y`, and
 * every other unit goes through the merged import table or passes unchanged.
 */
module Decoder {
  import opened Options
  import opened Alphabet
  import opened Tables

  /** The state `yod_flag` carries between units: nothing pending, or a pending j or J. */
  datatype Yod = NoYod | PendingSmall | PendingCapital

  predicate IsJ(c: int) {
    c == ASC_j || c == ASC_J
  }

  /** The unit a pending state stands for. */
  function YodUnit(y: Yod): (c: int)
    requires y != NoYod
    ensures IsJ(c)
  {
    if y == PendingSmall then ASC_j else ASC_J
  }

  /** The letter a pending j or J becomes when the digraph closes. */
  function LongVowel(y: Yod): int
    requires y != NoYod
  {
    if y == PendingSmall then ASC_y else ASC_Y
  }

  function YodOf(c: int): (y: Yod)
    requires IsJ(c)
    ensures y != NoYod && YodUnit(y) == c
  {
    if c == ASC_j then PendingSmall else PendingCapital
  }

  /** What one call of `_import_char` produces: a unit (0 meaning "nothing")
      and the new state, or the KeyError of a base without a composed form. */
  datatype Step = Emit(unit: int, yod: Yod) | Unmappable(base: int, mark: int)

  /** `_import_char`: one unit `cur`, looking ahead at `next` (0 past the end). */
  function ImportChar(cur: int, next: int, table: int -> int, yod: Yod): (r: Step)
    // the only failure: a base with no composed form for the mark after it
    ensures r.Unmappable? <==>
      cur !in COMBINING_MARKS && next in COMBINING_MARKS && Compose(next, cur).None?
    ensures r.Unmappable? ==> r.base == cur && r.mark == next
    // a combining mark on its own produces nothing and leaves the state alone
    ensures cur in COMBINING_MARKS ==> r == Emit(0, yod)
    // a base followed by a mark yields the composed unit
    ensures cur !in COMBINING_MARKS && next in COMBINING_MARKS && Compose(next, cur).Some? ==>
      r == Emit(Compose(next, cur).value, yod)
    // a mark, on its own or after a base, leaves the digraph state alone
    ensures r.Emit? && (cur in COMBINING_MARKS || next in COMBINING_MARKS) ==> r.yod == yod
    // otherwise a j or J is held back only when another j or J follows it
    ensures r.Emit? && cur !in COMBINING_MARKS && next !in COMBINING_MARKS && r.yod != NoYod ==>
      IsJ(cur) && IsJ(next) && YodUnit(r.yod) == cur
    // with nothing pending, a unit that opens neither a composition nor a
    // digraph is looked up in the table
    ensures cur !in COMBINING_MARKS && next !in COMBINING_MARKS && !(IsJ(cur) && IsJ(next)) && yod == NoYod ==>
      r == Emit(table(cur), NoYod)
  {
    if cur in COMBINING_MARKS then Emit(0, yod)
    else if next in COMBINING_MARKS then
      var composed := Compose(next, cur);
      if composed.Some? then Emit(composed.value, yod) else Unmappable(cur, next)
    else if IsJ(next) && IsJ(cur) then
      if yod == NoYod then Emit(0, YodOf(cur))
      else Emit(table(YodUnit(yod)), YodOf(cur))
    else if yod != NoYod then Emit(table(LongVowel(yod)), NoYod)
    else Emit(table(cur), NoYod)
  }

  /** The result of `import_string`: the canonical units, or the KeyError. */
  datatype Decoded = Decoded(units: seq<int>) | UnmappableCombination(base: int, mark: int)

  /** `res.append(converted_char)` runs only for a non-zero result. */
  function Emitted(u: int): seq<int> {
    if u != 0 then [u] else []
  }

  function Prepend(prefix: seq<int>, d: Decoded): Decoded {
    match d
    case Decoded(units) => Decoded(prefix + units)
    case UnmappableCombination(_, _) => d
  }

  /** The scan from the first unit of `t` on, entered with state `yod`. */
  function DecodeRun(t: seq<int>, table: int -> int, yod: Yod): Decoded
    decreases |t|
  {
    if t == [] then Decoded([])
    else
      match ImportChar(t[0], if |t| > 1 then t[1] else 0, table, yod)
      case Unmappable(b, m) => UnmappableCombination(b, m)
      case Emit(u, y) => Prepend(Emitted(u), DecodeRun(t[1..], table, y))
  }

  /** What `import_string(input, f)` returns. */
  function Decode(input: seq<int>, f: Format): Decoded {
    DecodeRun(input, ImportTable(f), NoYod)
  }

  function FromUnicode(input: seq<int>): Decoded { Decode(input, Unicode) }
  function FromUmschriftTtn(input: seq<int>): Decoded { Decode(input, UmschriftTtn) }
  function FromTrlitCgTimes(input: seq<int>): Decoded { Decode(input, TrlitCgTimes) }
  function FromTrlitCgTimes2023(input: seq<int>): Decoded { Decode(input, TrlitCgTimes2023) }
  function FromTransliteration(input: seq<int>): Decoded { Decode(input, Transliteration) }

  /** The unit after position `i - 1` of `input`, or 0 past the end. */
  function NextUnit(input: seq<int>, i: int): int
    requires 1 <= i <= |input|
  {
    if i < |input| then input[i] else 0
  }

  /** The digraph state before the unit at `i - 1` is processed: a pending j or
      J is the unit just before, and a j or J stands at `i - 1`. */
  predicate PendingYod(input: seq<int>, i: int, yod: Yod) {
    yod != NoYod ==> 2 <= i <= |input| && input[i - 2] == YodUnit(yod) && IsJ(input[i - 1])
  }

  lemma PrependPrepend(a: seq<int>, b: seq<int>, d: Decoded)
    ensures Prepend(a, Prepend(b, d)) == Prepend(a + b, d)
  {
    if d.Decoded? {
      assert a + (b + d.units) == (a + b) + d.units;
    }
  }

  /** One turn of the loop of `import_string`: the scan from `i - 1` is the
      step's unit before the scan from `i`, or the step's failure; and a pending
      state is left only on a j or J followed by another. */
  lemma ScanStep(input: seq<int>, i: int, table: int -> int, yod: Yod)
    requires 1 <= i <= |input|
    requires PendingYod(input, i, yod)
    ensures var s := ImportChar(input[i - 1], NextUnit(input, i), table, yod);
      && (s.Unmappable? ==> DecodeRun(input[i - 1..], table, yod) == UnmappableCombination(s.base, s.mark))
      && (s.Emit? ==> DecodeRun(input[i - 1..], table, yod) ==
                      Prepend(Emitted(s.unit), DecodeRun(input[i..], table, s.yod)))
      && (s.Emit? ==> PendingYod(input, i + 1, s.yod))
  {
    assert input[i - 1..][1..] == input[i..];
    PendingYodFollowsJ(input[i - 1], NextUnit(input, i), table, yod);
  }

  /** Entered with a pending j or J only on a j or J, a call leaves one pending
      only when it stands on a j or J and another follows. */
  lemma PendingYodFollowsJ(cur: int, next: int, table: int -> int, yod: Yod)
    requires yod != NoYod ==> IsJ(cur)
    ensures var r := ImportChar(cur, next, table, yod);
      r.Emit? && r.yod != NoYod ==> IsJ(cur) && IsJ(next) && YodUnit(r.yod) == cur
  {
    if yod != NoYod && next in COMBINING_MARKS {
      assert Compose(next, cur).None?;
    }
  }

  /** `import_string`: decoding with the merged table of the format. */
  method ImportString(input: seq<int>, f: Format) returns (r: Decoded)
    ensures r == Decode(input, f)
  {
    r := ImportWith(input, ImportTable(f));
  }

  /** The loop of `import_string` over `i`, with `next_char` as lookahead and
      the digraph state threaded from one unit to the next. */
  method ImportWith(input: seq<int>, table: int -> int) returns (r: Decoded)
    ensures r == DecodeRun(input, table, NoYod)
  {
    if |input| == 0 {
      return Decoded([]);
    }
    var i := 1;
    var res: seq<int> := [];
    var next := input[0];
    var yod := NoYod;
    ghost var whole := DecodeRun(input, table, NoYod);
    while i <= |input|
      invariant 1 <= i <= |input| + 1
      invariant i <= |input| ==> next == input[i - 1]
      invariant PendingYod(input, i, yod)
      invariant Prepend(res, DecodeRun(input[i - 1..], table, yod)) == whole
    {
      var current := next;
      next := if i < |input| then input[i] else 0;
      var step := ImportChar(current, next, table, yod);
      ScanStep(input, i, table, yod);
      if step.Unmappable? {
        return UnmappableCombination(step.base, step.mark);
      }
      PrependPrepend(res, Emitted(step.unit), DecodeRun(input[i..], table, step.yod));
      yod := step.yod;
      if step.unit != 0 {
        res := res + [step.unit];
      }
      i := i + 1;
    }
    // the digraph state is always clear once the input is consumed
    assert yod == NoYod;
    r := Decoded(res);
  }

  /** Unit at `i` is a base that has no composed form for the mark after it. */
  predicate BadPair(t: seq<int>, i: int)
    requires 0 <= i < |t| - 1
  {
    t[i] !in COMBINING_MARKS && t[i + 1] in COMBINING_MARKS && Compose(t[i + 1], t[i]).None?
  }

  /** Decoding fails exactly when some base is followed by a combining mark it
      has no composed form for, whatever the digraph state. */
  lemma {:induction false} DecodeFailsIff(t: seq<int>, table: int -> int, yod: Yod)
    ensures DecodeRun(t, table, yod).UnmappableCombination? <==>
      exists i :: 0 <= i < |t| - 1 && BadPair(t, i)
  {
    if t != [] {
      var next := if |t| > 1 then t[1] else 0;
      var step := ImportChar(t[0], next, table, yod);
      if step.Emit? {
        DecodeFailsIff(t[1..], table, step.yod);
        if exists i :: 0 <= i < |t| - 1 && BadPair(t, i) {
          var i :| 0 <= i < |t| - 1 && BadPair(t, i);
          assert i != 0;
          assert BadPair(t[1..], i - 1);
        }
        if exists i :: 0 <= i < |t[1..]| - 1 && BadPair(t[1..], i) {
          var i :| 0 <= i < |t[1..]| - 1 && BadPair(t[1..], i);
          assert BadPair(t, i + 1);
        }
      } else {
        assert BadPair(t, 0);
      }
    }
  }

  /** An entry of an import table that is not a combining mark. */
  predicate MarkFreeEntry(e: Option<int>) {
    e.Some? ==> e.value !in COMBINING_MARKS
  }

  /** No composed form is a combining mark. */
  lemma ComposeMarkFree(mark: int, c: int)
    requires mark in COMBINING_MARKS
    ensures MarkFreeEntry(Compose(mark, c))
  {
  }

  lemma FormatImportMarkFree(f: Format, c: int)
    ensures MarkFreeEntry(FormatImport(f, c))
  {
    match f
    case UmschriftTtn => TtnImportMarkFree(c);
    case Transliteration => TransliterationImportMarkFree(c);
    case TrlitCgTimes => TrlitCgTimesImportMarkFree(c);
    case TrlitCgTimes2023 => TrlitCgTimes2023ImportMarkFree(c);
    case Unicode =>
      UnicodeImportFirstMarkFree(c);
      UnicodeImportRestMarkFree(c);
  }

  lemma TtnImportMarkFree(c: int)
    ensures MarkFreeEntry(TtnImport(c))
  {
  }

  lemma TransliterationImportMarkFree(c: int)
    ensures MarkFreeEntry(TransliterationImport(c))
  {
  }

  lemma TrlitCgTimesImportMarkFree(c: int)
    ensures MarkFreeEntry(TrlitCgTimesImport(c))
  {
  }

  lemma TrlitCgTimes2023ImportMarkFree(c: int)
    ensures MarkFreeEntry(TrlitCgTimes2023Import(c))
  {
  }

  lemma UnicodeImportFirstMarkFree(c: int)
    ensures MarkFreeEntry(UnicodeImportFirst(c))
  {
  }

  lemma UnicodeImportRestMarkFree(c: int)
    ensures MarkFreeEntry(UnicodeImportRest(c))
  {
  }

  lemma CommonImportMarkFree(c: int)
    ensures MarkFreeEntry(CommonImport(c))
  {
  }

  /** A lookup that never turns a unit other than a combining mark into one. */
  ghost predicate KeepsMarksOut(table: int -> int) {
    forall c :: c !in COMBINING_MARKS ==> table(c) !in COMBINING_MARKS
  }

  /** No import table maps anything to a combining mark, and a unit that is not
      a mark does not become one by passing through. */
  lemma ImportTablesKeepMarksOut(f: Format)
    ensures KeepsMarksOut(ImportTable(f))
  {
    forall c | c !in COMBINING_MARKS
      ensures ImportTable(f)(c) !in COMBINING_MARKS
    {
      CommonImportMarkFree(c);
      FormatImportMarkFree(f, c);
    }
  }

  /** Each input unit yields at most one output unit; the output holds neither a
      combining mark nor a zero. */
  lemma {:induction false} DecodeShape(t: seq<int>, table: int -> int, yod: Yod)
    requires KeepsMarksOut(table)
    ensures DecodeRun(t, table, yod).Decoded? ==>
      var out := DecodeRun(t, table, yod).units;
      |out| <= |t| && forall k :: 0 <= k < |out| ==> out[k] != 0 && out[k] !in COMBINING_MARKS
  {
    if t != [] {
      var next := if |t| > 1 then t[1] else 0;
      var step := ImportChar(t[0], next, table, yod);
      if step.Emit? {
        DecodeShape(t[1..], table, step.yod);
        assert step.unit !in COMBINING_MARKS by {
          if next in COMBINING_MARKS && t[0] !in COMBINING_MARKS {
            ComposeMarkFree(next, t[0]);
          }
        }
      }
    }
  }

  /** The output of every import is at most as long as its input and free of
      combining marks. */
  lemma DecodeBounded(input: seq<int>, f: Format)
    ensures Decode(input, f).Decoded? ==>
      |Decode(input, f).units| <= |input| &&
      forall k :: 0 <= k < |Decode(input, f).units| ==> Decode(input, f).units[k] !in COMBINING_MARKS
  {
    ImportTablesKeepMarksOut(f);
    DecodeShape(input, ImportTable(f), NoYod);
  }

  /** The digraph vectors: jj -> y, Jj -> Y, jJ -> y, jjj -> yod followed by y. */
  lemma YodDigraphs(f: Format)
    ensures Decode([ASC_j, ASC_j], f) == Decoded([PSEUDO_y])
    ensures Decode([ASC_J, ASC_j], f) == Decoded([PSEUDO_Y])
    ensures Decode([ASC_j, ASC_J], f) == Decoded([PSEUDO_y])
    ensures Decode([ASC_j, ASC_j, ASC_j], f) == Decoded([PSEUDO_SMALL_YOD, PSEUDO_y])
  {
    CommonWins(f, ASC_y);
    CommonWins(f, ASC_Y);
    CommonWins(f, ASC_j);
    YodDigraphsWith(ImportTable(f));
  }

  /** A unit with a common entry reads that entry in every format. */
  lemma CommonWins(f: Format, c: int)
    requires CommonImport(c).Some?
    ensures ImportTable(f)(c) == CommonImport(c).value
  {
  }

  /** The digraph vectors under any lookup that reads y, Y and j as every
      format's merged table does. */
  lemma YodDigraphsWith(table: int -> int)
    requires table(ASC_y) == PSEUDO_y && table(ASC_Y) == PSEUDO_Y && table(ASC_j) == PSEUDO_SMALL_YOD
    ensures DecodeRun([ASC_j, ASC_j], table, NoYod) == Decoded([PSEUDO_y])
    ensures DecodeRun([ASC_J, ASC_j], table, NoYod) == Decoded([PSEUDO_Y])
    ensures DecodeRun([ASC_j, ASC_J], table, NoYod) == Decoded([PSEUDO_y])
    ensures DecodeRun([ASC_j, ASC_j, ASC_j], table, NoYod) == Decoded([PSEUDO_SMALL_YOD, PSEUDO_y])
  {
    assert DecodeRun([ASC_j], table, PendingSmall) == Decoded([PSEUDO_y]);
    assert DecodeRun([ASC_j], table, PendingCapital) == Decoded([PSEUDO_Y]);
    assert DecodeRun([ASC_J], table, PendingSmall) == Decoded([PSEUDO_y]);
    assert [ASC_j, ASC_j][1..] == [ASC_j];
    assert [ASC_J, ASC_j][1..] == [ASC_j];
    assert [ASC_j, ASC_J][1..] == [ASC_J];
    assert [ASC_j, ASC_j, ASC_j][1..] == [ASC_j, ASC_j];
    assert DecodeRun([ASC_j, ASC_j], table, PendingSmall) == Decoded([PSEUDO_SMALL_YOD, PSEUDO_y]);
  }

  /** Common entries override format entries; in the Unicode literal the last
      duplicate wins. */
  lemma TablePrecedence()
    ensures Translate(UmschriftTtn, ASC_Q) == PSEUDO_Q && TtnImport(ASC_Q) == Some(PSEUDO_q)
    ensures Translate(TrlitCgTimes2023, ASC_q) == PSEUDO_q && TrlitCgTimes2023Import(ASC_q) == Some(PSEUDO_k)
    ensures Translate(Unicode, UN_CAPITAL_ALEPH) == PSEUDO_SMALL_ALEPH
    ensures UnicodeImportFirst(UN_CAPITAL_ALEPH) == Some(PSEUDO_CAPITAL_ALEPH)
    ensures Translate(Unicode, UN_CAPITAL_AIN) == PSEUDO_SMALL_AIN
    ensures UnicodeImportFirst(UN_CAPITAL_AIN) == Some(PSEUDO_CAPITAL_AIN)
  {
  }

  /** The table applied unit by unit, a zero result dropped: how the decoder
      reads a text in which no combining mark occurs and no j or J stands
      before another. */
  function TranslateEach(t: seq<int>, table: int -> int): seq<int> {
    if t == [] then [] else Emitted(table(t[0])) + TranslateEach(t[1..], table)
  }

  /** Reading two texts one after the other is reading their concatenation. */
  lemma {:induction false} TranslateEachAppend(p: seq<int>, q: seq<int>, table: int -> int)
    ensures TranslateEach(p + q, table) == TranslateEach(p, table) + TranslateEach(q, table)
    decreases |p|
  {
    if p == [] {
      assert p + q == q;
    } else {
      assert (p + q)[1..] == p[1..] + q;
      TranslateEachAppend(p[1..], q, table);
    }
  }

  /** Without combining marks, and without a j or J followed by another, the
      decoder is a plain lookup of each unit in the merged table, unmapped
      units passing; what follows such a run is read on its own, provided it
      does not start with a mark or close a digraph. */
  lemma {:induction false} DecodePlainThen(p: seq<int>, q: seq<int>, table: int -> int)
    requires forall k :: 0 <= k < |p| ==> p[k] !in COMBINING_MARKS
    requires forall k :: 0 <= k < |p| - 1 ==> !(IsJ(p[k]) && IsJ(p[k + 1]))
    requires p != [] && q != [] ==> q[0] !in COMBINING_MARKS && !(IsJ(p[|p| - 1]) && IsJ(q[0]))
    ensures DecodeRun(p + q, table, NoYod) == Prepend(TranslateEach(p, table), DecodeRun(q, table, NoYod))
    decreases |p|
  {
    if p == [] {
      assert p + q == q;
      assert Prepend([], DecodeRun(q, table, NoYod)) == DecodeRun(q, table, NoYod);
    } else {
      var t := p + q;
      assert t[1..] == p[1..] + q;
      DecodePlainThen(p[1..], q, table);
      var next := if |t| > 1 then t[1] else 0;
      assert ImportChar(t[0], next, table, NoYod) == Emit(table(p[0]), NoYod);
      PrependPrepend(Emitted(table(p[0])), TranslateEach(p[1..], table), DecodeRun(q, table, NoYod));
    }
  }

  /** The whole text read unit by unit. */
  lemma DecodePlain(t: seq<int>, table: int -> int)
    requires forall k :: 0 <= k < |t| ==> t[k] !in COMBINING_MARKS
    requires forall k :: 0 <= k < |t| - 1 ==> !(IsJ(t[k]) && IsJ(t[k + 1]))
    ensures DecodeRun(t, table, NoYod) == Decoded(TranslateEach(t, table))
  {
    DecodePlainThen(t, [], table);
    assert t + [] == t;
  }

  /** A base followed by a mark it composes with reads as the composed unit,
      and the mark itself produces nothing. */
  lemma DecodeComposed(base: int, mark: int, q: seq<int>, table: int -> int)
    requires base !in COMBINING_MARKS && mark in COMBINING_MARKS && Compose(mark, base).Some?
    ensures DecodeRun([base, mark] + q, table, NoYod) ==
      Prepend(Emitted(Compose(mark, base).value), DecodeRun(q, table, NoYod))
  {
    var t := [base, mark] + q;
    assert t[1..][1..] == q;
    assert DecodeRun(t[1..], table, NoYod) == Prepend([], DecodeRun(q, table, NoYod));
  }
}
