# umschriftpy in Dafny

A model of the transcoder at the heart of `umschriftpy`, a library for
Egyptological transliteration. Text is held as an `UmschString`, an array of
*canonical units*: code points in a private band (0xF100–0xF143 for the
letters, capitals even and small letters odd) plus ASCII and Unicode signs
that pass through unchanged.

The model covers:

- **Alphabet** (`alphabet.dfy`): the `PSEUDO_*`, `UN_*` and `ASC_*`
  constants, `cased`, and the one-unit case maps used by `upper` and `lower`.
- **Tables** (`tables.dfy`): the import tables of the four legacy fonts and of
  Unicode, the entries common to every format, and the five
  `UN_DECODE_BEFORE_*` tables that compose a base letter with a following
  combining mark. It also holds the Unicode export table, its `K_WITH_DOT`
  and `J_FOR_YOD` overrides, and the two-unit expansions. Each dictionary
  literal is a lookup function that keeps the literal's order. Where the
  Unicode literal repeats a key, the later entry is the one written. The
  merged table of a format reads the common entry first: `import_string`
  updates the format's dictionary with the common one, so common entries
  win.
- **Decoder** (`decoder.dfy`): `_import_char` as a pure step function that
  returns the emitted unit and the new `yod_flag` state. `import_string` is a
  method whose loop threads that state and is proved equal to the recursive
  definition `DecodeRun`. The `from_*` wrappers are modelled too.
- **Encoder** (`encoder.dfy`): `export_string` as a loop proved against
  `ExportRun`. `to_unicode` is its pre-pass of single-unit `replace` calls
  followed by the export.
- **Text operations** (`umsch_string.dfy`, `filter.dfy`): `upper`, `lower`,
  `find`, `find_all`, `index`, `replace`, `startswith`, `endswith` and
  `filter`. Python slice bounds are normalised by `Bound`, as
  `slice(start, end).indices(n)` does. The loops of the source are methods,
  each proved equal to a specification function, and the properties are
  lemmas about those functions.
- **Round trip** (`roundtrip.dfy`): Unicode export followed by Unicode
  import gives the text back for every text made of export-table keys,
  except capital aleph and capital ain.
- **Vectors** (`vectors.dfy`, `import_vectors.dfy`): examples from the
  repository's tests, stated as lemmas about the model. They are
  `test_common_chars`, `test_find_all`, `test_transliteration`, `test_lcase`,
  `test_mix_with_hieroglyphs`, `test_export_jj`, `test_export_j` and the
  `to_unicode` half of `test_export_k_dot`. The other tests are listed under
  "Left out".

Every operation returns a fresh text and leaves its argument alone. A text
is therefore a `seq<int>` value, and each method returns its result.

## Model

| member | source | states |
|---|---|---|
| Alphabet.UpperOf | umschriftpy/umschriftpy.py:326-333 | a cased unit loses bit 0 and stays in its capital/small pair; every other unit is kept |
| Alphabet.LowerOf | umschriftpy/umschriftpy.py:335-342 | a cased unit gains bit 0, stays cased and stays in its pair; every other unit is kept |
| Alphabet.LetterPairsAdjacent | umschriftpy/umschriftpy.py:131-195 | every capital letter constant is cased and even, its small form is the next value, and `lower`/`upper` map each to the other |
| Decoder.ImportChar | umschriftpy/umschriftpy.py:510-538 | the step fails exactly when a base is followed by a mark it has no composed form for; a lone mark emits nothing and keeps the state; a base before a mark yields the composed unit; a j or J is held back only when another j or J follows; with nothing pending, any other unit is looked up in the table |
| Decoder.ImportString | umschriftpy/umschriftpy.py:491-507 | `import_string` returns the decoding under the format's merged table |
| Decoder.ImportWith | umschriftpy/umschriftpy.py:494-507 | the loop over `i` with `next_char` lookahead computes the recursive decoding `DecodeRun` |
| Decoder.ScanStep | umschriftpy/umschriftpy.py:499-506 | one turn of the loop: the step's unit is prepended to the rest of the scan, or the scan stops with the step's failure; a pending yod is left only on a j or J before another |
| Decoder.PendingYodFollowsJ | umschriftpy/umschriftpy.py:525-535 | a `yod_flag` left set after a unit is that unit, a j or J, and the next unit is a j or J, so the flag is clear at the end of the input |
| Decoder.DecodeFailsIff | umschriftpy/umschriftpy.py:510-524 | decoding raises exactly when some base is directly followed by a combining mark its table has no entry for |
| Decoder.ImportTablesKeepMarksOut | umschriftpy/umschriftpy.py:264-294 | no import or composition table maps a unit to a combining mark |
| Decoder.DecodeShape | umschriftpy/umschriftpy.py:491-538 | each input unit yields at most one output unit, and the output holds no zero and no combining mark |
| Decoder.DecodeBounded | umschriftpy/umschriftpy.py:491-507 | in every format the decoded text is no longer than the input and free of combining marks |
| Decoder.YodDigraphs | umschriftpy/umschriftpy.py:525-535 | in every format "jj" reads as y, "Jj" as Y, "jJ" as y, and "jjj" as small yod then y |
| Decoder.YodDigraphsWith | umschriftpy/umschriftpy.py:525-535 | the same digraph results under any table that reads y, Y and j as the merged tables do |
| Decoder.CommonWins | umschriftpy/umschriftpy.py:498 | a unit with a common entry reads that entry in every format |
| Decoder.TablePrecedence | umschriftpy/umschriftpy.py:289-294 | TTn `Q` and 2023 `q` read the common values, not their own entries; Unicode capital aleph and capital ain read the later, small entries of the literal |
| Decoder.DecodePlain | umschriftpy/umschriftpy.py:491-538 | without combining marks, and without a j or J directly followed by another, decoding is a lookup of each unit, unmapped units passing unchanged |
| Decoder.DecodePlainThen | umschriftpy/umschriftpy.py:491-538 | such a run is read unit by unit whatever follows it, provided the rest starts with no mark and does not close a digraph; the rest is read on its own |
| Decoder.TranslateEachAppend | umschriftpy/umschriftpy.py:498-506 | the unit-by-unit reading of two texts one after the other is the reading of their concatenation |
| Decoder.DecodeComposed | umschriftpy/umschriftpy.py:515-524 | a base followed by a mark it composes with reads as the composed unit, the mark adds nothing, and the rest is read on its own |
| UmschStrings.Bound | umschriftpy/umschriftpy.py:352 | a slice bound defaults when absent, counts from the end when negative, and is clamped to 0..n |
| UmschStrings.Uppered | umschriftpy/umschriftpy.py:326-333 | the text keeps its length and each unit is raised by `UpperOf` |
| UmschStrings.Lowered | umschriftpy/umschriftpy.py:335-342 | the text keeps its length and each unit is lowered by `LowerOf` |
| UmschStrings.Upper | umschriftpy/umschriftpy.py:326-333 | the `upper` loop computes `Uppered` |
| UmschStrings.Lower | umschriftpy/umschriftpy.py:335-342 | the `lower` loop computes `Lowered` |
| UmschStrings.LowerIdempotent | umschriftpy/umschriftpy.py:335-342 | lowering twice is lowering once |
| UmschStrings.UpperIdempotent | umschriftpy/umschriftpy.py:326-333 | raising twice is raising once |
| UmschStrings.CaseChangesStayInPlace | umschriftpy/umschriftpy.py:326-342 | non-cased units are untouched; a cased unit keeps its pair, with bit 0 set by `lower` and cleared by `upper` |
| UmschStrings.AllMatchesExact | umschriftpy/umschriftpy.py:351-370 | the match list holds exactly the in-range occurrences, overlapping ones included, strictly increasing |
| UmschStrings.FindLeast | umschriftpy/umschriftpy.py:362-370 | `find` answers -1 exactly when `sub` occurs nowhere in the normalised slice, and otherwise the least position where it occurs |
| UmschStrings.Find | umschriftpy/umschriftpy.py:362-370 | the `find` loop computes `FindIn` |
| UmschStrings.Index | umschriftpy/umschriftpy.py:344-349 | `index` is absent (the ValueError) exactly when nothing matches in the slice, and otherwise the least matching position |
| UmschStrings.FindAllExact | umschriftpy/umschriftpy.py:351-360 | `find_all` lists every occurrence in the slice, overlapping ones included, each once, in increasing order |
| UmschStrings.FindAllStep | umschriftpy/umschriftpy.py:355-359 | a `find` from `p` answers the head of the remaining matches, or -1 when none is left |
| UmschStrings.FindAll | umschriftpy/umschriftpy.py:351-360 | the `find_all` method computes `FindAllIn` whenever it terminates |
| UmschStrings.FindAllFrom | umschriftpy/umschriftpy.py:353-360 | the loop that resumes `find` one past each match collects all matches of the slice |
| UmschStrings.FindFrom | umschriftpy/umschriftpy.py:356 | the call of `find` inside the loop answers the first remaining match, and the rest come after it |
| UmschStrings.Replace | umschriftpy/umschriftpy.py:372-382 | `replace` splices the replacement at the first `count` positions that `find_all(old)` reports |
| UmschStrings.SpliceAll | umschriftpy/umschriftpy.py:376-382 | the copy loop of `replace` computes `Splice` |
| UmschStrings.SpliceNext | umschriftpy/umschriftpy.py:377-380 | one turn of the copy loop preserves the loop's result |
| UmschStrings.ReplaceSplicesFound | umschriftpy/umschriftpy.py:374 | the positions replaced are the first `count` of `find_all` over the whole text |
| UmschStrings.Respell | umschriftpy/umschriftpy.py:316-322 | a text without the unit is kept unchanged |
| UmschStrings.ReplaceOneUnit | umschriftpy/umschriftpy.py:372-382 | replacing a single unit rewrites exactly its occurrences and keeps everything else in order |
| UmschStrings.ReplaceOverlapDuplicates | umschriftpy/umschriftpy.py:372-382 | as written, replacing `[1, 1]` by itself in `[1, 1, 1]` yields four units |
| UmschStrings.DisjointMatchesApart | umschriftpy/umschriftpy.py:372-382 | the occurrences taken left to right without overlap are occurrences, each starting after the previous one ends |
| UmschStrings.ReplaceDisjointIdentity | umschriftpy/umschriftpy.py:372-382 | with non-overlapping occurrences, replacing a text by itself changes nothing |
| UmschStrings.ReplaceAgreesOnOneUnit | umschriftpy/umschriftpy.py:372-382 | for a one-unit target, the written and the non-overlapping `replace` agree for every count |
| UmschStrings.ReplaceAgreesWithoutOverlap | umschriftpy/umschriftpy.py:372-382 | whenever the occurrences `find_all` reports are at least the target's length apart, the written and the non-overlapping `replace` agree for every count |
| UmschStrings.MatchesApartAgree | umschriftpy/umschriftpy.py:351-360 | occurrences that are pairwise apart are exactly those taken left to right without overlap |
| UmschStrings.ReplaceDisjointOneUnit | umschriftpy/umschriftpy.py:372-382 | the non-overlapping `replace` of one unit rewrites exactly its occurrences |
| UmschStrings.StartsWith | umschriftpy/umschriftpy.py:428-433 | true exactly when `sub` is a prefix of the slice |
| UmschStrings.EndsWithAsWritten | umschriftpy/umschriftpy.py:421-426 | true exactly when `sub` is a suffix of the slice and is non-empty, or the slice is empty |
| UmschStrings.EndsWith | umschriftpy/umschriftpy.py:421-426 | true exactly when the slice is some text followed by `sub` |
| UmschStrings.EndsWithEmptyDenied | umschriftpy/umschriftpy.py:424 | as written, a one-unit text does not end with the empty text, although it does |
| UmschStrings.EndsWithAgreesOnNonEmpty | umschriftpy/umschriftpy.py:421-426 | for every non-empty `sub`, the written and the intended `endswith` agree |
| StringFilter.AllIsTheFourClasses | umschriftpy/umschriftpy.py:27-36 | `ALL` selects MORPH, SUFF_PRON, BRACKETS and PUNCT and no other flag |
| StringFilter.Filter | umschriftpy/umschriftpy.py:384-419 | `filter(flags)` computes `Filtered` with the digit range as written |
| StringFilter.FilterWith | umschriftpy/umschriftpy.py:385-419 | the loop with its `between_parentheses` flag computes the recursive pass, then lowers when LOWER is set |
| StringFilter.FilterRunSettles | umschriftpy/umschriftpy.py:405-416 | the pass never appends a dropped sign, a hyphen or a group opener, and appends at most one unit per unit read |
| StringFilter.FilterRunKeepsSettled | umschriftpy/umschriftpy.py:405-416 | a text made only of units the flags leave alone passes unchanged |
| StringFilter.LoweredSettled | umschriftpy/umschriftpy.py:417-418 | lowering a settled text keeps it settled |
| StringFilter.FilterIdempotent | umschriftpy/umschriftpy.py:384-419 | filtering a filtered text again with the same flags changes nothing |
| StringFilter.FilterRunSplits | umschriftpy/umschriftpy.py:405-416 | without FACULTATIVE, filtering a concatenation filters each part |
| StringFilter.FilterRunOpenFree | umschriftpy/umschriftpy.py:405-416 | outside a group, a stretch with no opening parenthesis filters on its own and leaves the scan outside |
| StringFilter.FilterRunSkipsGroup | umschriftpy/umschriftpy.py:408-409 | inside a group, everything up to and including the first closing parenthesis is skipped |
| StringFilter.FilterRunUnclosed | umschriftpy/umschriftpy.py:408-409 | inside a group that is never closed, nothing more is kept |
| StringFilter.FacultativeDropsGroup | umschriftpy/umschriftpy.py:408-411 | FACULTATIVE removes a parenthesised group with both parentheses, and filters what surrounds it as usual |
| StringFilter.FacultativeUnclosedDropsRest | umschriftpy/umschriftpy.py:408-411 | with FACULTATIVE, an opening parenthesis that is never closed drops the rest of the text |
| StringFilter.LowerComesLast | umschriftpy/umschriftpy.py:417-419 | with LOWER, the result is the lowered result of the same filter without LOWER |
| StringFilter.FilterRunIgnoresLower | umschriftpy/umschriftpy.py:405-416 | the LOWER flag plays no part in the pass itself |
| StringFilter.LowerFlagComposes | umschriftpy/umschriftpy.py:384-419 | filtering with LOWER equals filtering without it and then with LOWER alone |
| StringFilter.HyphensBecomeSpaces | umschriftpy/umschriftpy.py:402-413 | HYPHENS turns exactly the hyphen-minus, the minus sign and U+2010..U+2014 into a space; the horizontal bar U+2015 stays |
| StringFilter.HyphensSpaceWholeText | umschriftpy/umschriftpy.py:402-416 | with HYPHENS alone a text keeps its length, each unit of the hyphen class becomes a space and every other unit stays in place |
| StringFilter.DigitsKeepNine | umschriftpy/umschriftpy.py:400-401 | as written, DIGITS keeps the nine and drops the other digits |
| StringFilter.IntendedDropsEveryDigit | umschriftpy/umschriftpy.py:400-401 | with the intended range, no digit survives DIGITS, whatever the other flags, LOWER included |
| StringFilter.DigitRangesAgreeWithoutNine | umschriftpy/umschriftpy.py:400-401 | on a text without a nine, the written and the intended range filter alike |
| StringFilter.FilterRunKeeps | umschriftpy/umschriftpy.py:384-416 | without FACULTATIVE and HYPHENS, the pass removes the members of the drop-sets and keeps every other unit in order |
| StringFilter.KeptShape | umschriftpy/umschriftpy.py:414-415 | the units kept are units of the input that no drop-set holds, all of them, and never more than the input |
| Encoder.NoExportFlags | umschriftpy/umschriftpy.py:20-24 | flags 0 select no override and no pre-pass |
| Encoder.ExportString | umschriftpy/umschriftpy.py:469-486 | `export_string` returns the empty text for an empty input, fails for a format without export tables, and otherwise runs the export |
| Encoder.ExportWith | umschriftpy/umschriftpy.py:474-486 | the loop spells each unit by the two-unit table, then the flag overrides, then the export table, then the unit itself, and stops at a unit `chr` rejects |
| Encoder.ExportRunStaysFailed | umschriftpy/umschriftpy.py:478-485 | once a prefix fails to export, the whole text fails the same way |
| Encoder.ToUnicode | umschriftpy/umschriftpy.py:312-324 | `to_unicode` exports the copy after the pre-pass its flags select |
| Encoder.RespellUnit | umschriftpy/umschriftpy.py:316-322 | each single-unit `replace` of `to_unicode` rewrites exactly the occurrences of that unit |
| Encoder.RespellRemoves | umschriftpy/umschriftpy.py:316-322 | after a single-unit rewrite, the unit is gone and every unit other than it and those of the replacement is present exactly when it was before |
| Encoder.PrePassRemoves | umschriftpy/umschriftpy.py:315-322 | after SUPRESS_I_WITH_DIAERESIS no ï or Ï is left; after JJ_FOR_DOUBLE_YOD no y, Y, ï or Ï is left; with neither flag the text is unchanged |
| Encoder.ExportUnitShape | umschriftpy/umschriftpy.py:478-485 | every unit is spelled by one or two code points, and has no spelling exactly when it is no code point |
| Encoder.ExportRunShape | umschriftpy/umschriftpy.py:469-486 | the export fails exactly when some unit is no code point, naming the first one; otherwise the output is at least as long as the text and at most twice as long |
| Encoder.ExportRunAppend | umschriftpy/umschriftpy.py:478-485 | each unit is spelled on its own, in order: the export of a concatenation is the concatenation of the exports |
| Encoder.ExportOverrides | umschriftpy/umschriftpy.py:297-300 | K_WITH_DOT spells q and Q with a dot below, J_FOR_YOD spells the yods as j and J, and without them those units keep their export-table spellings |
| RoundTrip.MulticharKeysAreExportKeys | umschriftpy/umschriftpy.py:295-303 | every key of the two-unit table is a key of the export table, other than the two capitals |
| RoundTrip.MulticharReadsBack | umschriftpy/umschriftpy.py:302-303 | each two-unit spelling is a base and a mark that the decoder composes back to the key |
| RoundTrip.KWithDotReadsBack | umschriftpy/umschriftpy.py:297-298 | the K_WITH_DOT spellings of q and Q import back as q and Q |
| RoundTrip.ExportTableReadsBack | umschriftpy/umschriftpy.py:295-296 | the export-table code point of each key, except the two capitals, imports back as the key |
| RoundTrip.KeyReadsBack | umschriftpy/umschriftpy.py:478-485 | without J_FOR_YOD, every key has a spelling that imports back as it and cannot join the spelling before it |
| RoundTrip.SpellingStep | umschriftpy/umschriftpy.py:510-538 | the decoder reads a key's spelling as the key and then goes on with the text after it |
| RoundTrip.SpellingsReadBack | umschriftpy/umschriftpy.py:469-538 | a text whose units all have read-back spellings exports without failure, and its export decodes to the text |
| RoundTrip.ExportThenImport | umschriftpy/umschriftpy.py:469-538 | without J_FOR_YOD, and under any other flags, exporting a text of keys and importing the result from Unicode gives the text back |
| RoundTrip.ExportUnicodeRoundTrip | umschriftpy/umschriftpy.py:443-448 | `from_unicode(export_unicode(x)) == x` for every text `x` of keys other than capital aleph and capital ain |
| RoundTrip.CapitalAlephComesBackSmall | umschriftpy/umschriftpy.py:290 | capital aleph exports as its own code point but imports back as small aleph |
| RoundTrip.CapitalAinComesBackSmall | umschriftpy/umschriftpy.py:290 | capital ain exports as its own code point but imports back as small ain |
| RoundTrip.JForYodMergesYods | umschriftpy/umschriftpy.py:299-300 | with J_FOR_YOD two small yods export as "jj", which imports back as y |
| Vectors.FindAllNegativeBounds | test_pytest.py:86 | `find_all("p", -5, -2)` in "bdtpbdtptptptp" is [9, 11] |
| Vectors.FindAllPositiveBounds | test_pytest.py:87 | `find_all("p", 4, 11)` is [7, 9] |
| Vectors.FindAllMixedBounds | test_pytest.py:88 | `find_all("p", 4, -2)` is [7, 9, 11] |
| Vectors.LowerCaseVector | test_pytest.py:138-144 | "ꜤꜢH̱ḪH" from Unicode, lowered, equals "ꜥꜣẖḫh" from Unicode |
| Vectors.ExportDoubleYodVector | test_pytest.py:182-187 | "Imny Y" exports unchanged, and as "Imnjj Jj" with JJ_FOR_DOUBLE_YOD |
| Vectors.ExportJForYodVector | test_pytest.py:188-193 | "Ꞽmny Yꞽ" exports unchanged, and as "Jmnjj Jjj" with J_FOR_YOD and JJ_FOR_DOUBLE_YOD |
| Vectors.ExportKWithDotVector | test_pytest.py:203-206 | "qnbt Qnbt" exports unchanged, and as "ḳnbt Ḳnbt" with K_WITH_DOT |
| ImportVectors.CommonCharsVector | test_pytest.py:75-78 | "gGtTp" from Unicode is [0xF139, 0xF138, 0xF13B, 0xF13A, 0xF119] |
| ImportVectors.TransliterationVector | test_pytest.py:91-100 | the keyboard row read as Transliteration equals its Unicode spelling read as Unicode |
| ImportVectors.HieroglyphsVector | test_pytest.py:168-172 | "nṯr ꜥꜣ nb pt 𓇯👨‍👩‍👦" from Unicode, exported with `to_unicode()`, is the same text |

## Left out

- Text types: `array('u')`, `tounicode` and the width of `wchar_t` are not modelled. Text is a sequence of code points in, and a sequence of code points out.
- Decoder.ImportWith: on an empty input `import_string` returns `str()`, not an `UmschString`. The model answers the empty text `Decoded([])`.
- Decoder.ImportString: `import_string` updates the global `IMPORT_DICT` in place on every call. The model uses the merged table as a fixed function. Because the update is idempotent, every call sees the same table.
- Encoder.ExportString: export to a format other than Unicode raises a `KeyError`, because only Unicode export tables exist. It is modelled as the error value `NoExportTable`, which the empty-input check comes before.
- Encoder.ExportWith: `chr` rejects a unit above 0x10FFFF or below 0. That ValueError is modelled as `NotACodePoint`; nothing else about `chr` or wide characters is modelled.
- Flag sets: `IntEnum` and `IntFlag` are not modelled. Flags are non-negative numbers read bit by bit (`HasFlag`), then decoded into records of booleans.
- `__getitem__`, which keeps the `UmschString` type on slicing, has no counterpart: a slice of a sequence is a sequence.
- UmschStrings.FindAll: with an empty `sub` and a slice that reaches the end of the text, `find_all` never terminates. The method requires a non-empty `sub` or an earlier end.
- UmschStrings.Replace: requires a non-empty target, for the same reason.
- UmschStrings.FindFrom: the loop passes the end bound already normalised to `find`, where the source passes the caller's `end` again. Both select the same slice.
- Decoder.ImportChar: a unit that decodes to 0, such as a NUL input unit, is dropped, because `import_string` appends only non-zero results. The model does the same through `Emitted`.
- StringFilter.Filter: keeps the written digit range, which leaves the nine; the intended range is `FilteredIntended` (see Findings).
- UmschStrings.Replace: keeps the written, overlapping behaviour; the intended one is `ReplaceDisjoint` (see Findings).
- The transliteration export (`to_transliteration`), `to_pseudo`/`from_pseudo`, the import flag `S_FOR_Z`, the filter flags `CLEAN` and `REPLACE_*`, and the export flag `Z_FOR_S_AND_S_FOR_S_ACUTE` are not part of this model. They do not occur in `umschriftpy/umschriftpy.py`.
- Test vectors whose expected values contradict the tables are not modelled as properties:
  - test_pytest.py:64-73: 0xF4 and `d`.
  - test_pytest.py:103-112: `L`.
  - test_pytest.py:115-124: `L`; `Y`, whose common entry wins; and `O` and `o`, which the table maps to the ASCII `Q` and `q`.
  - test_pytest.py:127-136: ỉ and Ỉ (U+1EC9, U+1EC8), which are in no table and pass unchanged.
- The test harness, the sorting test and the sqlite use in `test_pytest.py` are not modelled.
- Tests that use features outside this model (`CLEAN`, the `REPLACE_*` flags, `S_FOR_Z`, `to_pseudo`, `to_transliteration`, `Z_FOR_S_AND_S_FOR_S_ACUTE`) are not modelled as vectors. These are `test_pseudo`, `test_filter`, `test_translit_output`, `test_replace`, `test_z`, `test_export_z` and the `to_transliteration` half of `test_export_k_dot`.

## Findings

| source | as written | input that shows it | evidently intended | confidence | as-written member | corrected member |
|---|---|---|---|---|---|---|
| umschriftpy/umschriftpy.py:372-382 | `replace` splices at every position `find_all` reports, and those overlap for a self-overlapping target, so the copy position runs past the next splice and text is duplicated | `[1, 1, 1].replace([1, 1], [1, 1])` gives `[1, 1, 1, 1]` | occurrences are taken left to right without overlap, as `str.replace` does, so replacing a text by itself is the identity | not executed | UmschStrings.ReplaceOverlapDuplicates | UmschStrings.ReplaceDisjointIdentity |
| umschriftpy/umschriftpy.py:421-426 | `endswith` tests `sliced[-len(sub):]`, and for an empty `sub` that is `sliced[0:]`, the whole slice | `endswith` of the empty text on the text `[0x61]` is False | every text ends with the empty text, as `str.endswith` answers | not executed | UmschStrings.EndsWithEmptyDenied | UmschStrings.EndsWithAgreesOnNonEmpty |
| umschriftpy/umschriftpy.py:400-401 | DIGITS drops `range(ASC_ZERO, ASC_NINE)`, whose stop is excluded, so the nine is kept | `filter(DIGITS)` of "9" is "9" | the flag is documented as removing all digits (line 33), so the range should end one past the nine | not executed | StringFilter.DigitsKeepNine | StringFilter.IntendedDropsEveryDigit |

The corrected definitions are `UmschStrings.ReplaceDisjoint`, `UmschStrings.EndsWith` and
`StringFilter.FilteredIntended`. `to_unicode` only ever replaces single units. For a single
unit the written and the corrected `replace` agree (`UmschStrings.ReplaceAgreesOnOneUnit`), so
the encoder's results are those of the corrected `replace`. The methods `Replace` and
`Filter` keep the written behaviour, because they model the code as it stands.
