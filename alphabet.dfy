/**
 * The canonical alphabet of the transcoder: plain ASCII values, the "pseudo"
 * codepoints of the private band (0xF020.. for punctuation, 0xF100..0xF143 for
 * letters) and the Unicode code points the Unicode tables refer to.
 *
 * Cased letters occupy 0xF100..0xF143 in pairs: the capital at the even value,
 * the small letter at the odd value right after it. The right half ring
 * (0xF10C) sits inside that band but has no case.
 */
module Alphabet {

  const ASC_SPACE: int := 32
  const ASC_SUFFIX_PRONOMEN_SEPARATOR: int := 61
  const ASC_EXCLAMATION_MARK: int := 33
  const ASC_QUOTE: int := 34
  const ASC_NUMBER: int := 35
  const ASC_DOLLAR: int := 36
  const ASC_PERCENT: int := 37
  const ASC_AMP: int := 38
  const ASC_APOSTROPHE: int := 39
  const ASC_LEFT_PARENTHESIS: int := 40
  const ASC_RIGHT_PARENTHESIS: int := 41
  const ASC_ASTERISK: int := 42
  const ASC_PLUS: int := 43
  const ASC_SLASH: int := 47
  const ASC_EQUALS: int := 0x003D
  const ASC_SECTION: int := 0x00A7
  const ASC_LOW_LINE: int := 0x005F
  const ASC_AT: int := 0x0040
  const ASC_AMPERSAND: int := 0x0026
  const ASC_CIRCUMFLEX_ACCENT: int := 0x005E
  const ASC_YEN: int := 0x00A5
  const ASC_DOT: int := 0x002E
  const ASC_COMMA: int := 44
  const ASC_QUESTION_MARK: int := 63
  const ASC_COLON: int := 0x003A
  const ASC_LEFT_SQUARE_BRACKET: int := 0x005B
  const ASC_RIGHT_SQUARE_BRACKET: int := 0x005D
  const ASC_LESS_THAN_SIGN: int := 0x003C
  const ASC_GREATER_THAN_SIGN: int := 0x003E
  const ASC_LEFT_CURLY_BRACKET: int := 0x007B
  const ASC_RIGHT_CURLY_BRACKET: int := 0x007D
  const ASC_VERTICAL_LINE: int := 0x007C
  const ASC_ZERO: int := 48
  const ASC_NINE: int := 57
  const ASC_HYPHEN_MINUS: int := 45

  const ASC_a: int := 97
  const ASC_b: int := 98
  const ASC_c: int := 99
  const ASC_d: int := 100
  const ASC_e: int := 101
  const ASC_f: int := 102
  const ASC_g: int := 103
  const ASC_h: int := 104
  const ASC_i: int := 105
  const ASC_j: int := 106
  const ASC_k: int := 107
  const ASC_l: int := 108
  const ASC_m: int := 109
  const ASC_n: int := 110
  const ASC_o: int := 111
  const ASC_p: int := 112
  const ASC_q: int := 113
  const ASC_r: int := 114
  const ASC_s: int := 115
  const ASC_t: int := 116
  const ASC_u: int := 117
  const ASC_v: int := 118
  const ASC_w: int := 119
  const ASC_x: int := 120
  const ASC_y: int := 121
  const ASC_z: int := 122
  const ASC_A: int := 65
  const ASC_B: int := 66
  const ASC_C: int := 67
  const ASC_D: int := 68
  const ASC_E: int := 69
  const ASC_F: int := 70
  const ASC_G: int := 71
  const ASC_H: int := 72
  const ASC_I: int := 73
  const ASC_J: int := 74
  const ASC_K: int := 75
  const ASC_L: int := 76
  const ASC_M: int := 77
  const ASC_N: int := 78
  const ASC_O: int := 79
  const ASC_P: int := 80
  const ASC_Q: int := 81
  const ASC_R: int := 82
  const ASC_S: int := 83
  const ASC_T: int := 84
  const ASC_U: int := 85
  const ASC_V: int := 86
  const ASC_W: int := 87
  const ASC_X: int := 88
  const ASC_Y: int := 89
  const ASC_Z: int := 90

  const PSEUDO_SMALL_ALEPH: int := 0xF101
  const PSEUDO_CAPITAL_ALEPH: int := 0xF100
  const PSEUDO_SMALL_YOD: int := 0xF103
  const PSEUDO_CAPITAL_YOD: int := 0xF102
  const PSEUDO_e: int := 0xF105
  const PSEUDO_E: int := 0xF104
  const PSEUDO_y: int := 0xF107
  const PSEUDO_Y: int := 0xF106
  const PSEUDO_i_WITH_DIAERESIS: int := 0xF109
  const PSEUDO_I_WITH_DIAERESIS: int := 0xF108
  const PSEUDO_i_WITH_INVERTED_BREVE: int := 0xF10B
  const PSEUDO_I_WITH_INVERTED_BREVE: int := 0xF10A
  const PSEUDO_RIGHT_HALF_RING: int := 0xF10C

  const PSEUDO_SMALL_AIN: int := 0xF10F
  const PSEUDO_CAPITAL_AIN: int := 0xF10E

  const PSEUDO_w: int := 0xF113
  const PSEUDO_W: int := 0xF112
  const PSEUDO_u_WITH_INVERTED_BREVE: int := 0xF115
  const PSEUDO_U_WITH_INVERTED_BREVE: int := 0xF114
  const PSEUDO_b: int := 0xF117
  const PSEUDO_B: int := 0xF116
  const PSEUDO_p: int := 0xF119
  const PSEUDO_P: int := 0xF118
  const PSEUDO_f: int := 0xF11B
  const PSEUDO_F: int := 0xF11A
  const PSEUDO_m: int := 0xF11D
  const PSEUDO_M: int := 0xF11C
  const PSEUDO_n: int := 0xF11F
  const PSEUDO_N: int := 0xF11E
  const PSEUDO_r: int := 0xF121
  const PSEUDO_R: int := 0xF120
  const PSEUDO_l: int := 0xF123
  const PSEUDO_L: int := 0xF122
  const PSEUDO_h: int := 0xF125
  const PSEUDO_H: int := 0xF124
  const PSEUDO_h_WITH_DOT: int := 0xF127
  const PSEUDO_H_WITH_DOT: int := 0xF126
  const PSEUDO_h_WITH_BREVE: int := 0xF129
  const PSEUDO_H_WITH_BREVE: int := 0xF128
  const PSEUDO_h_WITH_CURCUMFLEX: int := 0xF12B
  const PSEUDO_H_WITH_CURCUMFLEX: int := 0xF12A
  const PSEUDO_h_WITH_LINE: int := 0xF12D
  const PSEUDO_H_WITH_LINE: int := 0xF12C
  const PSEUDO_z: int := 0xF12F
  const PSEUDO_Z: int := 0xF12E
  const PSEUDO_s: int := 0xF131
  const PSEUDO_S: int := 0xF130
  const PSEUDO_s_WITH_CARON: int := 0xF133
  const PSEUDO_S_WITH_CARON: int := 0xF132
  const PSEUDO_q: int := 0xF135
  const PSEUDO_Q: int := 0xF134
  const PSEUDO_k: int := 0xF137
  const PSEUDO_K: int := 0xF136
  const PSEUDO_g: int := 0xF139
  const PSEUDO_G: int := 0xF138
  const PSEUDO_t: int := 0xF13B
  const PSEUDO_T: int := 0xF13A
  const PSEUDO_t_WITH_CURCUMFLEX: int := 0xF13D
  const PSEUDO_T_WITH_CURCUMFLEX: int := 0xF13C
  const PSEUDO_t_WITH_LINE: int := 0xF13F
  const PSEUDO_T_WITH_LINE: int := 0xF13E
  const PSEUDO_d: int := 0xF141
  const PSEUDO_D: int := 0xF140
  const PSEUDO_d_WITH_LINE: int := 0xF143
  const PSEUDO_D_WITH_LINE: int := 0xF142

  const PSEUDO_DOT: int := 0xF020
  const PSEUDO_MIDDLE_DOT: int := 0xF021
  const PSEUDO_COLON: int := 0xF022
  const PSEUDO_SUFFIX_PRONOMEN_SEPARATOR: int := 0xF023
  const PSEUDO_TOP_LEFT_HALF_BRACKET: int := 0xF0A0
  const PSEUDO_TOP_RIGHT_HALF_BRACKET: int := 0xF0A1
  const PSEUDO_LEFT_ANGLE_BRACKET: int := 0xF0A2
  const PSEUDO_RIGHT_ANGLE_BRACKET: int := 0xF0A3

  const UN_SMALL_ALEPH: int := 0xA723
  const UN_CAPITAL_ALEPH: int := 0xA722
  const UN_SMALL_YOD: int := 0xA7BD
  const UN_CAPITAL_YOD: int := 0xA7BC
  const UN_i_WITH_DIAERESIS: int := 0x00EF
  const UN_I_WITH_DIAERESIS: int := 0x00CF
  const UN_i_WITH_INVERTED_BREVE: int := 0xEC44
  const UN_I_WITH_INVERTED_BREVE: int := 0xEC83
  const UN_SMALL_AIN: int := 0xA725
  const UN_CAPITAL_AIN: int := 0xA724
  const UN_u_WITH_INVERTED_BREVE: int := 0xEC45
  const UN_U_WITH_INVERTED_BREVE: int := 0xEC84
  const UN_h_WITH_DOT: int := 0x1E25
  const UN_H_WITH_DOT: int := 0x1E24
  const UN_h_WITH_BREVE: int := 0x1E2B
  const UN_H_WITH_BREVE: int := 0x1E2A
  const UN_h_WITH_LINE: int := 0x1E96
  const UN_H_WITH_LINE: int := 0xEC40
  const UN_s_WITH_ACUTE: int := 0x015B
  const UN_S_WITH_ACUTE: int := 0x015A
  const UN_s_WITH_CARON: int := 0x0161
  const UN_S_WITH_CARON: int := 0x0160
  const UN_k_WITH_DOT: int := 0x1E33
  const UN_K_WITH_DOT: int := 0x1E32
  const UN_t_WITH_LINE: int := 0x1E6F
  const UN_T_WITH_LINE: int := 0x1E6E
  const UN_d_WITH_LINE: int := 0x1E0F
  const UN_D_WITH_LINE: int := 0x1E0E

  const UN_RIGHT_HALF_RING: int := 0x02BE
  const UN_h_WITH_CURCUMFLEX: int := 0xEC47
  const UN_H_WITH_CURCUMFLEX: int := 0xEC48
  const UN_t_WITH_CURCUMFLEX: int := 0x1E71
  const UN_T_WITH_CURCUMFLEX: int := 0x1E70
  const UN_c_WITH_CARON: int := 0x010D
  const UN_C_WITH_CARON: int := 0x010C
  const UN_t_WITH_DOT: int := 0x1E6D
  const UN_T_WITH_DOT: int := 0x1E6C

  const UN_SMALL_DOTLESS_I: int := 0x0131
  const UN_COMBINING_MACRON_BELOW: int := 0x0331
  const UN_COMBINING_CIRCUMFLEX_BELOW: int := 0x032D
  const UN_COMBINING_INVERTED_BREVE: int := 0x032F
  const UN_COMBINING_RIGHT_HALF_RING_ABOVE: int := 0x0357
  const UN_COMBINING_CYRILLIC_PSILI_PNEUMATA: int := 0x0486
  const UN_COMBINING_DOT_BELOW: int := 0x0323
  const UN_TOP_LEFT_HALF_BRACKET: int := 0x2E22
  const UN_TOP_RIGHT_HALF_BRACKET: int := 0x2E23
  const UN_LEFT_ANGLE_BRACKET: int := 0x27E8
  const UN_RIGHT_ANGLE_BRACKET: int := 0x27E9
  const UN_SUFFIX_PRONOMEN_SEPARATOR: int := 0x2E17
  const UN_MIDDLE_DOT: int := 0x00B7
  const UN_HYPHEN: int := 0x2010
  const UN_HORIZONTAL_BAR: int := 0x2015
  const UN_MINUS_SIGN: int := 0x2212

  /** The combining marks the decoder composes with the preceding base unit. */
  const COMBINING_MARKS: set<int> := {UN_COMBINING_MACRON_BELOW, UN_COMBINING_CIRCUMFLEX_BELOW,
    UN_COMBINING_INVERTED_BREVE, UN_COMBINING_RIGHT_HALF_RING_ABOVE,
    UN_COMBINING_CYRILLIC_PSILI_PNEUMATA, UN_COMBINING_DOT_BELOW}

  /** `flags & bit` is non-zero, for a flag set given as a number and a
      single-bit `bit`. */
  predicate HasFlag(flags: nat, bit: nat)
    requires bit > 0
  {
    (flags / bit) % 2 == 1
  }

  /** `cased`: inside the letter band and not the right half ring. */
  predicate Cased(c: int) {
    PSEUDO_CAPITAL_ALEPH <= c <= PSEUDO_d_WITH_LINE && c != PSEUDO_RIGHT_HALF_RING
  }

  /** One element as `upper` treats it: a cased value loses bit 0. */
  function UpperOf(c: int): (u: int)
    ensures Cased(c) ==> u % 2 == 0 && u / 2 == c / 2
    ensures !Cased(c) ==> u == c
  {
    if Cased(c) then c - c % 2 else c
  }

  /** One element as `lower` treats it: a cased value gains bit 0. */
  function LowerOf(c: int): (l: int)
    ensures Cased(c) ==> l % 2 == 1 && l / 2 == c / 2 && Cased(l)
    ensures !Cased(c) ==> l == c
  {
    if Cased(c) then c + (1 - c % 2) else c
  }

  /** Every capital letter constant of the band, paired with its small letter. */
  const LETTER_PAIRS: seq<(int, int)> := [
    (PSEUDO_CAPITAL_ALEPH, PSEUDO_SMALL_ALEPH), (PSEUDO_CAPITAL_YOD, PSEUDO_SMALL_YOD),
    (PSEUDO_E, PSEUDO_e), (PSEUDO_Y, PSEUDO_y), (PSEUDO_I_WITH_DIAERESIS, PSEUDO_i_WITH_DIAERESIS),
    (PSEUDO_I_WITH_INVERTED_BREVE, PSEUDO_i_WITH_INVERTED_BREVE), (PSEUDO_CAPITAL_AIN, PSEUDO_SMALL_AIN),
    (PSEUDO_W, PSEUDO_w), (PSEUDO_U_WITH_INVERTED_BREVE, PSEUDO_u_WITH_INVERTED_BREVE),
    (PSEUDO_B, PSEUDO_b), (PSEUDO_P, PSEUDO_p), (PSEUDO_F, PSEUDO_f), (PSEUDO_M, PSEUDO_m),
    (PSEUDO_N, PSEUDO_n), (PSEUDO_R, PSEUDO_r), (PSEUDO_L, PSEUDO_l), (PSEUDO_H, PSEUDO_h),
    (PSEUDO_H_WITH_DOT, PSEUDO_h_WITH_DOT), (PSEUDO_H_WITH_BREVE, PSEUDO_h_WITH_BREVE),
    (PSEUDO_H_WITH_CURCUMFLEX, PSEUDO_h_WITH_CURCUMFLEX), (PSEUDO_H_WITH_LINE, PSEUDO_h_WITH_LINE),
    (PSEUDO_Z, PSEUDO_z), (PSEUDO_S, PSEUDO_s), (PSEUDO_S_WITH_CARON, PSEUDO_s_WITH_CARON),
    (PSEUDO_Q, PSEUDO_q), (PSEUDO_K, PSEUDO_k), (PSEUDO_G, PSEUDO_g), (PSEUDO_T, PSEUDO_t),
    (PSEUDO_T_WITH_CURCUMFLEX, PSEUDO_t_WITH_CURCUMFLEX), (PSEUDO_T_WITH_LINE, PSEUDO_t_WITH_LINE),
    (PSEUDO_D, PSEUDO_d), (PSEUDO_D_WITH_LINE, PSEUDO_d_WITH_LINE)]

  /** The layout invariant: each letter's capital and small form are adjacent
      cased values, and case mapping moves between them. */
  lemma LetterPairsAdjacent()
    ensures forall k :: 0 <= k < |LETTER_PAIRS| ==>
      var (cap, small) := LETTER_PAIRS[k];
      Cased(cap) && Cased(small) && small == cap + 1 && cap % 2 == 0 &&
      LowerOf(cap) == small && UpperOf(small) == cap
  {
  }
}
