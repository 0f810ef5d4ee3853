/**
 * `UmschString.filter`: one pass over the text that drops the sign classes the
 * flags select, turns hyphens into spaces, skips everything from an opening
 * parenthesis to the matching closing one, and finally lowers the case.
 */
module StringFilter {
  import opened Alphabet
  import opened UmschStrings

  /** The bits of the `UmFilter` flag set. */
  const MORPH: nat := 1
  const SUFF_PRON: nat := 2
  const BRACKETS: nat := 4
  const PUNCT: nat := 8
  const ALL: nat := 15
  const DIGITS: nat := 16
  const FACULTATIVE: nat := 32
  const LOWER: nat := 64
  const HYPHENS: nat := 128

  /** The flags decoded once, one field per flag. */
  datatype FilterFlags = FilterFlags(morph: bool, suffPron: bool, brackets: bool, punct: bool,
                                     digits: bool, facultative: bool, lower: bool, hyphens: bool)

  function FilterFlagsOf(flags: nat): FilterFlags {
    FilterFlags(HasFlag(flags, MORPH), HasFlag(flags, SUFF_PRON), HasFlag(flags, BRACKETS), HasFlag(flags, PUNCT),
                HasFlag(flags, DIGITS), HasFlag(flags, FACULTATIVE), HasFlag(flags, LOWER), HasFlag(flags, HYPHENS))
  }

  /** `ALL` is the four sign classes together and nothing else. */
  lemma AllIsTheFourClasses()
    ensures FilterFlagsOf(ALL) == FilterFlags(true, true, true, true, false, false, false, false)
    ensures FilterFlagsOf(ALL) == FilterFlagsOf(MORPH + SUFF_PRON + BRACKETS + PUNCT)
  {
  }

  /** The stop of the digit range `range(ASC_ZERO, ASC_NINE)` as written, which
      leaves out the nine, and the stop that takes in every digit. */
  const DIGITS_STOP_AS_WRITTEN: int := ASC_NINE
  const DIGITS_STOP_INTENDED: int := ASC_NINE + 1

  /** Membership in `filtered_signs`: the signs the flags drop, with the digit
      range ending before `digitStop`. */
  predicate Dropped(f: FilterFlags, digitStop: int, c: int) {
    (f.morph && c in {PSEUDO_DOT, PSEUDO_COLON, PSEUDO_MIDDLE_DOT}) ||
    (f.suffPron && c == PSEUDO_SUFFIX_PRONOMEN_SEPARATOR) ||
    (f.brackets && c in {PSEUDO_TOP_LEFT_HALF_BRACKET, PSEUDO_TOP_RIGHT_HALF_BRACKET,
                         PSEUDO_LEFT_ANGLE_BRACKET, PSEUDO_RIGHT_ANGLE_BRACKET,
                         ASC_LEFT_PARENTHESIS, ASC_RIGHT_PARENTHESIS,
                         ASC_LEFT_SQUARE_BRACKET, ASC_RIGHT_SQUARE_BRACKET,
                         ASC_LESS_THAN_SIGN, ASC_GREATER_THAN_SIGN,
                         ASC_LEFT_CURLY_BRACKET, ASC_RIGHT_CURLY_BRACKET, ASC_VERTICAL_LINE}) ||
    (f.punct && c in {PSEUDO_DOT, ASC_COMMA, ASC_QUESTION_MARK, ASC_EXCLAMATION_MARK, ASC_QUOTE}) ||
    (f.digits && ASC_ZERO <= c < digitStop)
  }

  /** Membership in `replace_with_space`: the hyphen-minus, the minus sign and
      the range `UN_HYPHEN` up to, not including, `UN_HORIZONTAL_BAR`. */
  predicate Spaced(f: FilterFlags, c: int) {
    f.hyphens && (c == ASC_HYPHEN_MINUS || c == UN_MINUS_SIGN || UN_HYPHEN <= c < UN_HORIZONTAL_BAR)
  }

  /** One turn of the loop of `filter`: what it appends for `c` and whether the
      scan is between parentheses afterwards. */
  function Turn(f: FilterFlags, digitStop: int, c: int, between: bool): (seq<int>, bool) {
    if f.facultative && between then ([], c != ASC_RIGHT_PARENTHESIS)
    else if f.facultative && c == ASC_LEFT_PARENTHESIS then ([], true)
    else if Spaced(f, c) then ([ASC_SPACE], between)
    else if !Dropped(f, digitStop, c) then ([c], between)
    else ([], between)
  }

  /** The loop of `filter` from the first unit of `t` on. */
  function FilterRun(t: seq<int>, f: FilterFlags, digitStop: int, between: bool): seq<int>
    decreases |t|
  {
    if t == [] then []
    else
      var (out, next) := Turn(f, digitStop, t[0], between);
      out + FilterRun(t[1..], f, digitStop, next)
  }

  /** What `filter(flags)` returns: the pass, then `lower` when asked. */
  function Filtered(s: seq<int>, f: FilterFlags, digitStop: int): seq<int> {
    var kept := FilterRun(s, f, digitStop, false);
    if f.lower then Lowered(kept) else kept
  }

  /** One turn of the loop of `filter`: the unit's output joins what is done,
      and the scan goes on from the next unit in the new state. */
  lemma FilterRunStep(s: seq<int>, i: nat, f: FilterFlags, digitStop: int, between: bool, done: seq<int>)
    requires i < |s|
    ensures done + FilterRun(s[i..], f, digitStop, between) ==
      (done + Turn(f, digitStop, s[i], between).0) + FilterRun(s[i + 1..], f, digitStop, Turn(f, digitStop, s[i], between).1)
  {
    assert s[i..][0] == s[i] && s[i..][1..] == s[i + 1..];
  }

  /** `filter`. */
  method Filter(s: seq<int>, flags: nat) returns (r: seq<int>)
    ensures r == Filtered(s, FilterFlagsOf(flags), DIGITS_STOP_AS_WRITTEN)
  {
    r := FilterWith(s, FilterFlagsOf(flags));
  }

  /** The loop of `filter` under decoded flags, with `between_parentheses`
      carried from one unit to the next. */
  method FilterWith(s: seq<int>, f: FilterFlags) returns (r: seq<int>)
    ensures r == Filtered(s, f, DIGITS_STOP_AS_WRITTEN)
  {
    var between := false;
    var res: seq<int> := [];
    var i := 0;
    ghost var whole := FilterRun(s, f, DIGITS_STOP_AS_WRITTEN, false);
    while i < |s|
      invariant 0 <= i <= |s|
      invariant res + FilterRun(s[i..], f, DIGITS_STOP_AS_WRITTEN, between) == whole
    {
      var c := s[i];
      ghost var turn := Turn(f, DIGITS_STOP_AS_WRITTEN, c, between);
      FilterRunStep(s, i, f, DIGITS_STOP_AS_WRITTEN, between, res);
      ghost var before := res;
      if f.facultative && between {
        between := c != ASC_RIGHT_PARENTHESIS;
        assert turn == ([], between);
      } else if f.facultative && c == ASC_LEFT_PARENTHESIS {
        between := true;
        assert turn == ([], between);
      } else if Spaced(f, c) {
        assert turn == ([ASC_SPACE], between);
        res := res + [ASC_SPACE];
      } else if !Dropped(f, DIGITS_STOP_AS_WRITTEN, c) {
        assert turn == ([c], between);
        res := res + [c];
      } else {
        assert turn == ([], between);
      }
      assert res == before + turn.0 && between == turn.1;
      i := i + 1;
    }
    if f.lower {
      r := Lower(res);
    } else {
      r := res;
    }
  }

  // ----- properties -----

  /** A unit the pass leaves as it is: neither dropped nor spaced, and not an
      opening parenthesis that would start a skipped group. */
  predicate Settled(f: FilterFlags, digitStop: int, c: int) {
    !Dropped(f, digitStop, c) && !Spaced(f, c) && !(f.facultative && c == ASC_LEFT_PARENTHESIS)
  }

  predicate AllSettled(f: FilterFlags, digitStop: int, t: seq<int>) {
    forall k :: 0 <= k < |t| ==> Settled(f, digitStop, t[k])
  }

  /** The pass never appends a dropped sign, a hyphen or a group opener, and
      appends at most one unit per unit read. */
  lemma {:induction false} FilterRunSettles(t: seq<int>, f: FilterFlags, digitStop: int, between: bool)
    requires ASC_ZERO <= digitStop <= DIGITS_STOP_INTENDED
    ensures |FilterRun(t, f, digitStop, between)| <= |t|
    ensures AllSettled(f, digitStop, FilterRun(t, f, digitStop, between))
    decreases |t|
  {
    if t != [] {
      var (out, next) := Turn(f, digitStop, t[0], between);
      FilterRunSettles(t[1..], f, digitStop, next);
      assert AllSettled(f, digitStop, out) by {
        if out == [ASC_SPACE] {
          assert !Dropped(f, digitStop, ASC_SPACE);
        }
      }
    }
  }

  /** A text of settled units passes unchanged. */
  lemma {:induction false} FilterRunKeepsSettled(t: seq<int>, f: FilterFlags, digitStop: int)
    requires AllSettled(f, digitStop, t)
    ensures FilterRun(t, f, digitStop, false) == t
    decreases |t|
  {
    if t != [] {
      assert Settled(f, digitStop, t[0]);
      assert AllSettled(f, digitStop, t[1..]) by {
        forall k | 0 <= k < |t[1..]| ensures Settled(f, digitStop, t[1..][k]) {
          assert t[1..][k] == t[k + 1];
        }
      }
      FilterRunKeepsSettled(t[1..], f, digitStop);
    }
  }

  /** Lowering keeps a settled text settled: no cased unit is a sign the
      filter treats specially. */
  lemma LoweredSettled(t: seq<int>, f: FilterFlags, digitStop: int)
    requires digitStop <= DIGITS_STOP_INTENDED
    requires AllSettled(f, digitStop, t)
    ensures AllSettled(f, digitStop, Lowered(t))
  {
    forall k | 0 <= k < |t| ensures Settled(f, digitStop, Lowered(t)[k]) {
      if Cased(t[k]) {
        var l := LowerOf(t[k]);
        assert PSEUDO_CAPITAL_ALEPH <= l <= PSEUDO_d_WITH_LINE;
        assert !Dropped(f, digitStop, l);
      }
    }
  }

  /** Filtering a filtered text again changes nothing. */
  lemma FilterIdempotent(s: seq<int>, f: FilterFlags, digitStop: int)
    requires ASC_ZERO <= digitStop <= DIGITS_STOP_INTENDED
    ensures Filtered(Filtered(s, f, digitStop), f, digitStop) == Filtered(s, f, digitStop)
  {
    var kept := FilterRun(s, f, digitStop, false);
    FilterRunSettles(s, f, digitStop, false);
    if f.lower {
      LoweredSettled(kept, f, digitStop);
      FilterRunKeepsSettled(Lowered(kept), f, digitStop);
      LowerIdempotent(kept);
    } else {
      FilterRunKeepsSettled(kept, f, digitStop);
    }
  }

  /** Without `FACULTATIVE` the pass treats every unit on its own: filtering a
      concatenation filters each part. */
  lemma {:induction false} FilterRunSplits(a: seq<int>, b: seq<int>, f: FilterFlags, digitStop: int)
    requires !f.facultative
    ensures FilterRun(a + b, f, digitStop, false) == FilterRun(a, f, digitStop, false) + FilterRun(b, f, digitStop, false)
    decreases |a|
  {
    if a != [] {
      assert (a + b)[0] == a[0] && (a + b)[1..] == a[1..] + b;
      var (out, next) := Turn(f, digitStop, a[0], false);
      assert !next;
      FilterRunSplits(a[1..], b, f, digitStop);
      assert FilterRun(a + b, f, digitStop, false) == out + FilterRun(a[1..] + b, f, digitStop, false);
    } else {
      assert a + b == b;
    }
  }

  /** Outside a group a text without an opening parenthesis filters unit by
      unit and leaves the scan outside. */
  lemma {:induction false} FilterRunOpenFree(a: seq<int>, rest: seq<int>, f: FilterFlags, digitStop: int)
    requires ASC_LEFT_PARENTHESIS !in a
    ensures FilterRun(a + rest, f, digitStop, false) == FilterRun(a, f, digitStop, false) + FilterRun(rest, f, digitStop, false)
    decreases |a|
  {
    if a != [] {
      assert (a + rest)[0] == a[0] && (a + rest)[1..] == a[1..] + rest;
      var (out, next) := Turn(f, digitStop, a[0], false);
      assert !next;
      FilterRunOpenFree(a[1..], rest, f, digitStop);
      assert FilterRun(a + rest, f, digitStop, false) == out + FilterRun(a[1..] + rest, f, digitStop, false);
    } else {
      assert a + rest == rest;
    }
  }

  /** Inside a group everything up to and including the first closing
      parenthesis is skipped; the scan then continues outside. */
  lemma {:induction false} FilterRunSkipsGroup(b: seq<int>, rest: seq<int>, f: FilterFlags, digitStop: int)
    requires f.facultative && ASC_RIGHT_PARENTHESIS !in b
    ensures FilterRun(b + [ASC_RIGHT_PARENTHESIS] + rest, f, digitStop, true) == FilterRun(rest, f, digitStop, false)
    decreases |b|
  {
    if b == [] {
      assert ([] + [ASC_RIGHT_PARENTHESIS] + rest)[1..] == rest;
    } else {
      assert (b + [ASC_RIGHT_PARENTHESIS] + rest)[1..] == b[1..] + [ASC_RIGHT_PARENTHESIS] + rest;
      FilterRunSkipsGroup(b[1..], rest, f, digitStop);
    }
  }

  /** Inside a group that is never closed, nothing more is kept. */
  lemma {:induction false} FilterRunUnclosed(b: seq<int>, f: FilterFlags, digitStop: int)
    requires f.facultative && ASC_RIGHT_PARENTHESIS !in b
    ensures FilterRun(b, f, digitStop, true) == []
    decreases |b|
  {
    if b != [] {
      FilterRunUnclosed(b[1..], f, digitStop);
    }
  }

  /** `FACULTATIVE` removes a parenthesised group with its parentheses and
      keeps what surrounds it as the pass would on its own. */
  lemma FacultativeDropsGroup(a: seq<int>, b: seq<int>, c: seq<int>, f: FilterFlags, digitStop: int)
    requires f.facultative
    requires ASC_LEFT_PARENTHESIS !in a && ASC_RIGHT_PARENTHESIS !in b
    ensures FilterRun(a + [ASC_LEFT_PARENTHESIS] + b + [ASC_RIGHT_PARENTHESIS] + c, f, digitStop, false) ==
      FilterRun(a, f, digitStop, false) + FilterRun(c, f, digitStop, false)
  {
    var group := b + [ASC_RIGHT_PARENTHESIS] + c;
    var tail := [ASC_LEFT_PARENTHESIS] + group;
    assert a + [ASC_LEFT_PARENTHESIS] + b + [ASC_RIGHT_PARENTHESIS] + c == a + tail;
    FilterRunOpenFree(a, tail, f, digitStop);
    assert tail[0] == ASC_LEFT_PARENTHESIS && tail[1..] == group;
    assert FilterRun(tail, f, digitStop, false) == FilterRun(group, f, digitStop, true);
    FilterRunSkipsGroup(b, c, f, digitStop);
  }

  /** With `FACULTATIVE`, an opening parenthesis that is never closed drops the
      rest of the text. */
  lemma FacultativeUnclosedDropsRest(a: seq<int>, b: seq<int>, f: FilterFlags, digitStop: int)
    requires f.facultative
    requires ASC_LEFT_PARENTHESIS !in a && ASC_RIGHT_PARENTHESIS !in b
    ensures FilterRun(a + [ASC_LEFT_PARENTHESIS] + b, f, digitStop, false) == FilterRun(a, f, digitStop, false)
  {
    var tail := [ASC_LEFT_PARENTHESIS] + b;
    assert a + [ASC_LEFT_PARENTHESIS] + b == a + tail;
    FilterRunOpenFree(a, tail, f, digitStop);
    assert tail[0] == ASC_LEFT_PARENTHESIS && tail[1..] == b;
    assert FilterRun(tail, f, digitStop, false) == FilterRun(b, f, digitStop, true);
    FilterRunUnclosed(b, f, digitStop);
  }

  /** `LOWER` acts last, on the result of the whole pass. */
  lemma LowerComesLast(s: seq<int>, f: FilterFlags, digitStop: int)
    requires f.lower
    ensures Filtered(s, f, digitStop) == Lowered(Filtered(s, f.(lower := false), digitStop))
  {
    FilterRunIgnoresLower(s, f, digitStop, false);
  }

  lemma {:induction false} FilterRunIgnoresLower(t: seq<int>, f: FilterFlags, digitStop: int, between: bool)
    ensures FilterRun(t, f, digitStop, between) == FilterRun(t, f.(lower := false), digitStop, between)
    decreases |t|
  {
    if t != [] {
      assert Turn(f, digitStop, t[0], between) == Turn(f.(lower := false), digitStop, t[0], between);
      FilterRunIgnoresLower(t[1..], f, digitStop, Turn(f, digitStop, t[0], between).1);
    }
  }

  /** `HYPHENS` turns the hyphen-minus, the minus sign and U+2010..U+2014 into a
      space, but not the horizontal bar U+2015. */
  lemma HyphensBecomeSpaces(c: int)
    ensures Spaced(FilterFlagsOf(HYPHENS), c) <==>
      c == ASC_HYPHEN_MINUS || c == UN_MINUS_SIGN || UN_HYPHEN <= c <= 0x2014
    ensures Filtered([c], FilterFlagsOf(HYPHENS), DIGITS_STOP_AS_WRITTEN) ==
      if Spaced(FilterFlagsOf(HYPHENS), c) then [ASC_SPACE] else [c]
  {
    var f := FilterFlagsOf(HYPHENS);
    assert f == FilterFlags(false, false, false, false, false, false, false, true);
    assert FilterRun([c], f, DIGITS_STOP_AS_WRITTEN, false) == Turn(f, DIGITS_STOP_AS_WRITTEN, c, false).0;
  }

  /** With `HYPHENS` alone a whole text keeps its length: each unit of the
      hyphen class becomes a space and every other unit stays where it is. */
  lemma {:induction false} HyphensSpaceWholeText(s: seq<int>)
    ensures var f := FilterFlagsOf(HYPHENS);
      var r := Filtered(s, f, DIGITS_STOP_AS_WRITTEN);
      |r| == |s| && forall k :: 0 <= k < |s| ==> r[k] == if Spaced(f, s[k]) then ASC_SPACE else s[k]
    decreases |s|
  {
    var f := FilterFlagsOf(HYPHENS);
    assert f == FilterFlags(false, false, false, false, false, false, false, true);
    if s != [] {
      HyphensSpaceWholeText(s[1..]);
      var head := if Spaced(f, s[0]) then ASC_SPACE else s[0];
      assert Turn(f, DIGITS_STOP_AS_WRITTEN, s[0], false) == ([head], false);
      var rest := FilterRun(s[1..], f, DIGITS_STOP_AS_WRITTEN, false);
      assert FilterRun(s, f, DIGITS_STOP_AS_WRITTEN, false) == [head] + rest;
      forall k | 1 <= k < |s|
        ensures ([head] + rest)[k] == if Spaced(f, s[k]) then ASC_SPACE else s[k]
      {
        assert s[1..][k - 1] == s[k];
      }
    }
  }

  // ----- the digit range -----

  // `filter` drops `range(ASC_ZERO, ASC_NINE)` for `DIGITS`, documented as
  // removing all digits; the stop of a Python range is excluded, so the nine
  // is kept.

  /** As written, `DIGITS` keeps the nine and drops the other digits. */
  lemma DigitsKeepNine()
    ensures Filtered([ASC_NINE], FilterFlagsOf(DIGITS), DIGITS_STOP_AS_WRITTEN) == [ASC_NINE]
    ensures Filtered([ASC_ZERO, ASC_NINE - 1], FilterFlagsOf(DIGITS), DIGITS_STOP_AS_WRITTEN) == []
  {
    var f := FilterFlagsOf(DIGITS);
    assert f == FilterFlags(false, false, false, false, true, false, false, false);
    assert FilterRun([ASC_NINE], f, DIGITS_STOP_AS_WRITTEN, false) == [ASC_NINE];
    assert [ASC_ZERO, ASC_NINE - 1][1..] == [ASC_NINE - 1];
    assert FilterRun([ASC_NINE - 1], f, DIGITS_STOP_AS_WRITTEN, false) == [];
  }

  /** The filter as intended: every digit is dropped. */
  function FilteredIntended(s: seq<int>, f: FilterFlags): seq<int> {
    Filtered(s, f, DIGITS_STOP_INTENDED)
  }

  /** With the intended range no digit survives `DIGITS`. */
  lemma IntendedDropsEveryDigit(s: seq<int>, f: FilterFlags)
    requires f.digits
    ensures forall k :: 0 <= k < |FilteredIntended(s, f)| ==>
      !(ASC_ZERO <= FilteredIntended(s, f)[k] <= ASC_NINE)
  {
    var kept := FilterRun(s, f, DIGITS_STOP_INTENDED, false);
    FilterRunSettles(s, f, DIGITS_STOP_INTENDED, false);
    if f.lower {
      LoweredSettled(kept, f, DIGITS_STOP_INTENDED);
    }
  }

  /** Both ranges agree on a text without a nine. */
  lemma {:induction false} DigitRangesAgreeWithoutNine(t: seq<int>, f: FilterFlags, between: bool)
    requires ASC_NINE !in t
    ensures FilterRun(t, f, DIGITS_STOP_AS_WRITTEN, between) == FilterRun(t, f, DIGITS_STOP_INTENDED, between)
    decreases |t|
  {
    if t != [] {
      var c := t[0];
      assert Dropped(f, DIGITS_STOP_AS_WRITTEN, c) == Dropped(f, DIGITS_STOP_INTENDED, c);
      assert ASC_NINE !in t[1..];
      DigitRangesAgreeWithoutNine(t[1..], f, Turn(f, DIGITS_STOP_AS_WRITTEN, c, between).1);
    }
  }

  // ----- the drop-sets on their own -----

  /** The units of `t` that the flags do not drop, in their order. */
  function Kept(t: seq<int>, f: FilterFlags, digitStop: int): seq<int> {
    if t == [] then []
    else
      var last := t[|t| - 1];
      Kept(t[..|t| - 1], f, digitStop) + (if Dropped(f, digitStop, last) then [] else [last])
  }

  /** Without FACULTATIVE and HYPHENS the pass removes the members of the
      drop-sets and keeps every other unit in order. */
  lemma {:induction false} FilterRunKeeps(t: seq<int>, f: FilterFlags, digitStop: int)
    requires !f.facultative && !f.hyphens
    ensures FilterRun(t, f, digitStop, false) == Kept(t, f, digitStop)
    decreases |t|
  {
    if t != [] {
      var init := t[..|t| - 1];
      var last := t[|t| - 1];
      assert t == init + [last];
      FilterRunSplits(init, [last], f, digitStop);
      FilterRunKeeps(init, f, digitStop);
      assert [last][1..] == [];
    }
  }

  /** The units kept are units of the input that no drop-set holds, and there
      are never more of them than input units. */
  lemma {:induction false} KeptShape(t: seq<int>, f: FilterFlags, digitStop: int)
    ensures |Kept(t, f, digitStop)| <= |t|
    ensures forall c :: c in Kept(t, f, digitStop) <==> c in t && !Dropped(f, digitStop, c)
    decreases |t|
  {
    if t != [] {
      var init := t[..|t| - 1];
      KeptShape(init, f, digitStop);
      assert t == init + [t[|t| - 1]];
    }
  }

  /** The flags with only LOWER set. */
  const LOWER_ONLY: FilterFlags := FilterFlags(false, false, false, false, false, false, true, false)

  /** The LOWER flag composes with the others: filtering under flags with LOWER
      is filtering without it and then filtering with LOWER alone. */
  lemma LowerFlagComposes(s: seq<int>, f: FilterFlags, digitStop: int)
    requires f.lower
    ensures Filtered(s, f, digitStop) == Filtered(Filtered(s, f.(lower := false), digitStop), LOWER_ONLY, digitStop)
  {
    var kept := Filtered(s, f.(lower := false), digitStop);
    assert AllSettled(LOWER_ONLY, digitStop, kept);
    FilterRunKeepsSettled(kept, LOWER_ONLY, digitStop);
    LowerComesLast(s, f, digitStop);
  }
}
