/**
 * The static conversion tables: per-format import tables, the entries common to
 * all formats, the tables that compose a base with a following combining mark,
 * and the Unicode export tables (single units, flag overrides, two-unit
 * expansions).
 */
module Tables {
  import opened Options
  import opened Alphabet

  /** The formats a text can be imported from. Only UNICODE has export tables. */
  datatype Format = UmschriftTtn | Transliteration | TrlitCgTimes | TrlitCgTimes2023 | Unicode

  // Composition of a base with a following combining mark, one lookup per
  // `UN_DECODE_BEFORE_COMBINING_*` literal.
  function BeforeMacron(c: int): Option<int> {
    if c == ASC_H then Some(PSEUDO_H_WITH_LINE)
    else if c == ASC_h then Some(PSEUDO_h_WITH_LINE)
    else if c == ASC_d then Some(PSEUDO_d_WITH_LINE)
    else if c == ASC_D then Some(PSEUDO_D_WITH_LINE)
    else if c == ASC_t then Some(PSEUDO_t_WITH_LINE)
    else if c == ASC_T then Some(PSEUDO_T_WITH_LINE)
    else None
  }

  function BeforeCircumflex(c: int): Option<int> {
    if c == ASC_H then Some(PSEUDO_H_WITH_CURCUMFLEX)
    else if c == ASC_h then Some(PSEUDO_h_WITH_CURCUMFLEX)
    else if c == ASC_t then Some(PSEUDO_t_WITH_CURCUMFLEX)
    else if c == ASC_T then Some(PSEUDO_T_WITH_CURCUMFLEX)
    else None
  }

  function BeforeInvertedBreve(c: int): Option<int> {
    if c == ASC_i then Some(PSEUDO_i_WITH_INVERTED_BREVE)
    else if c == ASC_I then Some(PSEUDO_I_WITH_INVERTED_BREVE)
    else if c == ASC_u then Some(PSEUDO_u_WITH_INVERTED_BREVE)
    else if c == ASC_U then Some(PSEUDO_U_WITH_INVERTED_BREVE)
    else None
  }

  function BeforeDotBelow(c: int): Option<int> {
    if c == ASC_k then Some(PSEUDO_q)
    else if c == ASC_K then Some(PSEUDO_Q)
    else if c == ASC_h then Some(PSEUDO_h_WITH_DOT)
    else if c == ASC_H then Some(PSEUDO_H_WITH_DOT)
    else if c == ASC_t then Some(PSEUDO_d)
    else if c == ASC_T then Some(PSEUDO_D)
    else if c == UN_c_WITH_CARON then Some(PSEUDO_d_WITH_LINE)
    else if c == UN_C_WITH_CARON then Some(PSEUDO_D_WITH_LINE)
    else None
  }

  function BeforeHalfRingAbove(c: int): Option<int> {
    if c == ASC_i then Some(PSEUDO_SMALL_YOD)
    else if c == UN_SMALL_DOTLESS_I then Some(PSEUDO_SMALL_YOD)
    else if c == ASC_I then Some(PSEUDO_CAPITAL_YOD)
    else None
  }

  /** The composed form of `c` when `mark` follows it, from the table the
      decoder consults for that mark; the two spellings of the half ring above
      share one table. */
  function Compose(mark: int, c: int): Option<int>
    requires mark in COMBINING_MARKS
  {
    if mark == UN_COMBINING_MACRON_BELOW then BeforeMacron(c)
    else if mark == UN_COMBINING_CIRCUMFLEX_BELOW then BeforeCircumflex(c)
    else if mark == UN_COMBINING_INVERTED_BREVE then BeforeInvertedBreve(c)
    else if mark == UN_COMBINING_DOT_BELOW then BeforeDotBelow(c)
    else BeforeHalfRingAbove(c)
  }

  // Each dictionary literal becomes a lookup that answers `None` for a key the
  // literal does not hold. The entries keep the order of the literal.

  /** Import entries for the Umschrift_TTn font. */
  function TtnImport(c: int): Option<int> {
    if c == 0xa6 then Some(PSEUDO_SMALL_YOD)
    else if c == ASC_QUOTE then Some(PSEUDO_H_WITH_DOT)
    else if c == 0x7e then Some(PSEUDO_i_WITH_DIAERESIS)
    else if c == ASC_X then Some(PSEUDO_h_WITH_BREVE)
    else if c == ASC_NUMBER then Some(PSEUDO_SMALL_ALEPH)
    else if c == ASC_o then Some(PSEUDO_SMALL_AIN)
    else if c == 0x7c then Some(PSEUDO_SMALL_YOD)
    else if c == ASC_H then Some(PSEUDO_h_WITH_DOT)
    else if c == ASC_x then Some(PSEUDO_h_WITH_LINE)
    else if c == 0xc8 then Some(PSEUDO_s)
    else if c == ASC_Q then Some(PSEUDO_q)
    else if c == ASC_T then Some(PSEUDO_t_WITH_LINE)
    else if c == ASC_D then Some(PSEUDO_d_WITH_LINE)
    else if c == ASC_EXCLAMATION_MARK then Some(PSEUDO_H)
    else if c == ASC_AT then Some(PSEUDO_d_WITH_LINE)
    else if c == ASC_DOLLAR then Some(PSEUDO_H_WITH_LINE)
    else if c == ASC_PERCENT then Some(PSEUDO_H_WITH_BREVE)
    else if c == ASC_CIRCUMFLEX_ACCENT then Some(ASC_LEFT_PARENTHESIS)
    else if c == ASC_AMPERSAND then Some(PSEUDO_TOP_LEFT_HALF_BRACKET)
    else if c == ASC_LOW_LINE then Some(PSEUDO_u_WITH_INVERTED_BREVE)
    else if c == ASC_PLUS then Some(PSEUDO_i_WITH_INVERTED_BREVE)
    else if c == ASC_O then Some(PSEUDO_H_WITH_DOT)
    else if c == ASC_V then Some(PSEUDO_T_WITH_LINE)
    else if c == ASC_v then Some(PSEUDO_T)
    else if c == ASC_EQUALS then Some(PSEUDO_SUFFIX_PRONOMEN_SEPARATOR)
    else if c == ASC_e then Some(PSEUDO_D)
    else if c == ASC_A then Some(PSEUDO_RIGHT_HALF_RING)
    else if c == ASC_APOSTROPHE then Some(PSEUDO_RIGHT_HALF_RING)
    else if c == 0x5c then Some(PSEUDO_TOP_RIGHT_HALF_BRACKET)
    else if c == ASC_c then Some(PSEUDO_S)
    else if c == 0xb3 then Some(PSEUDO_d)
    else if c == 0xb2 then Some(PSEUDO_t_WITH_LINE)
    else if c == ASC_E then Some(PSEUDO_D_WITH_LINE)
    else if c == ASC_SECTION then Some(PSEUDO_h_WITH_CURCUMFLEX)
    else if c == 0xdf then Some(PSEUDO_t_WITH_CURCUMFLEX)
    else if c == 0xb5 then Some(PSEUDO_E)
    else if c == 0xc0 then Some(ASC_A)
    else if c == 0x2020 then Some(ASC_c)
    else if c == 0x2030 then Some(PSEUDO_T)
    else if c == 0x2122 then Some(PSEUDO_SMALL_ALEPH)
    else if c == 0xa1 then Some(ASC_LOW_LINE)
    else if c == 0xa3 then Some(PSEUDO_T_WITH_CURCUMFLEX)
    else if c == ASC_YEN then Some(PSEUDO_e)
    else if c == 0xa9 then Some(PSEUDO_h_WITH_CURCUMFLEX)
    else if c == 0xc4 then Some(PSEUDO_Q)
    else if c == 0xc6 then Some(PSEUDO_d)
    else if c == 0xca then Some(PSEUDO_CAPITAL_YOD)
    else if c == 0xcb then Some(ASC_PLUS)
    else if c == 0xcf then Some(PSEUDO_SMALL_YOD)
    else if c == 0xd2 then Some(ASC_O)
    else if c == 0xd3 then Some(ASC_o)
    else if c == 0xd6 then Some(PSEUDO_Q)
    else if c == 0xd9 then Some(PSEUDO_D_WITH_LINE)
    else if c == 0xdc then Some(PSEUDO_S)
    else if c == 0xe6 then Some(PSEUDO_D)
    else if c == 0xe7 then Some(PSEUDO_t_WITH_LINE)
    else if c == 0xea then Some(PSEUDO_e)
    else if c == 0xf4 then Some(ASC_d)
    else if c == 0xfb then Some(PSEUDO_q)
    else if c == ASC_S then Some(PSEUDO_s_WITH_CARON)
    else if c == ASC_C then Some(PSEUDO_S_WITH_CARON)
    else if c == 0xbd then Some(ASC_LEFT_PARENTHESIS)
    else None
  }

  /** Import entries for Unicode text: the literal up to its first repeated key. */
  function UnicodeImportFirst(c: int): Option<int> {
    if c == ASC_E then Some(PSEUDO_E)
    else if c == ASC_e then Some(PSEUDO_e)
    else if c == UN_SMALL_ALEPH then Some(PSEUDO_SMALL_ALEPH)
    else if c == UN_CAPITAL_ALEPH then Some(PSEUDO_CAPITAL_ALEPH)
    else if c == UN_SMALL_YOD then Some(PSEUDO_SMALL_YOD)
    else if c == UN_CAPITAL_YOD then Some(PSEUDO_CAPITAL_YOD)
    else if c == UN_i_WITH_INVERTED_BREVE then Some(PSEUDO_i_WITH_INVERTED_BREVE)
    else if c == UN_I_WITH_INVERTED_BREVE then Some(PSEUDO_I_WITH_INVERTED_BREVE)
    else if c == UN_RIGHT_HALF_RING then Some(PSEUDO_RIGHT_HALF_RING)
    else if c == UN_SMALL_AIN then Some(PSEUDO_SMALL_AIN)
    else if c == UN_CAPITAL_AIN then Some(PSEUDO_CAPITAL_AIN)
    else if c == UN_u_WITH_INVERTED_BREVE then Some(PSEUDO_u_WITH_INVERTED_BREVE)
    else if c == UN_U_WITH_INVERTED_BREVE then Some(PSEUDO_U_WITH_INVERTED_BREVE)
    else if c == ASC_H then Some(PSEUDO_H)
    else if c == UN_h_WITH_DOT then Some(PSEUDO_h_WITH_DOT)
    else if c == UN_H_WITH_DOT then Some(PSEUDO_H_WITH_DOT)
    else if c == UN_h_WITH_BREVE then Some(PSEUDO_h_WITH_BREVE)
    else if c == UN_H_WITH_BREVE then Some(PSEUDO_H_WITH_BREVE)
    else if c == UN_h_WITH_CURCUMFLEX then Some(PSEUDO_h_WITH_CURCUMFLEX)
    else if c == UN_H_WITH_CURCUMFLEX then Some(PSEUDO_H_WITH_CURCUMFLEX)
    else if c == UN_h_WITH_LINE then Some(PSEUDO_h_WITH_LINE)
    else if c == UN_H_WITH_LINE then Some(PSEUDO_H_WITH_LINE)
    else if c == ASC_S then Some(PSEUDO_S)
    else if c == UN_s_WITH_CARON then Some(PSEUDO_s_WITH_CARON)
    else if c == UN_S_WITH_CARON then Some(PSEUDO_S_WITH_CARON)
    else if c == ASC_q then Some(PSEUDO_q)
    else if c == ASC_Q then Some(PSEUDO_Q)
    else if c == ASC_T then Some(PSEUDO_T)
    else if c == UN_t_WITH_CURCUMFLEX then Some(PSEUDO_t_WITH_CURCUMFLEX)
    else if c == UN_T_WITH_CURCUMFLEX then Some(PSEUDO_T_WITH_CURCUMFLEX)
    else if c == UN_t_WITH_LINE then Some(PSEUDO_t_WITH_LINE)
    else if c == UN_T_WITH_LINE then Some(PSEUDO_T_WITH_LINE)
    else if c == ASC_D then Some(PSEUDO_D)
    else if c == UN_d_WITH_LINE then Some(PSEUDO_d_WITH_LINE)
    else if c == UN_D_WITH_LINE then Some(PSEUDO_D_WITH_LINE)
    else if c == ASC_DOT then Some(PSEUDO_DOT)
    else if c == UN_MIDDLE_DOT then Some(PSEUDO_MIDDLE_DOT)
    else if c == ASC_COLON then Some(PSEUDO_COLON)
    else if c == UN_SUFFIX_PRONOMEN_SEPARATOR then Some(PSEUDO_SUFFIX_PRONOMEN_SEPARATOR)
    else if c == UN_TOP_LEFT_HALF_BRACKET then Some(PSEUDO_TOP_LEFT_HALF_BRACKET)
    else if c == UN_TOP_RIGHT_HALF_BRACKET then Some(PSEUDO_TOP_RIGHT_HALF_BRACKET)
    else if c == UN_LEFT_ANGLE_BRACKET then Some(PSEUDO_LEFT_ANGLE_BRACKET)
    else if c == UN_RIGHT_ANGLE_BRACKET then Some(PSEUDO_RIGHT_ANGLE_BRACKET)
    else None
  }

  /** Import entries for Unicode text: the rest of the literal, which repeats
      some earlier keys (with the same or a different value). */
  function UnicodeImportRest(c: int): Option<int> {
    if c == UN_TOP_LEFT_HALF_BRACKET then Some(PSEUDO_TOP_LEFT_HALF_BRACKET)
    else if c == UN_TOP_RIGHT_HALF_BRACKET then Some(PSEUDO_TOP_RIGHT_HALF_BRACKET)
    else if c == UN_LEFT_ANGLE_BRACKET then Some(PSEUDO_LEFT_ANGLE_BRACKET)
    else if c == UN_RIGHT_ANGLE_BRACKET then Some(PSEUDO_RIGHT_ANGLE_BRACKET)
    else if c == UN_MIDDLE_DOT then Some(PSEUDO_MIDDLE_DOT)
    else if c == ASC_D then Some(PSEUDO_D)
    else if c == ASC_H then Some(PSEUDO_H)
    else if c == ASC_S then Some(PSEUDO_S)
    else if c == ASC_T then Some(PSEUDO_T)
    else if c == UN_SMALL_ALEPH then Some(PSEUDO_SMALL_ALEPH)
    else if c == UN_CAPITAL_ALEPH then Some(PSEUDO_SMALL_ALEPH)
    else if c == 0x21d then Some(PSEUDO_SMALL_ALEPH)
    else if c == 0x21c then Some(PSEUDO_SMALL_ALEPH)
    else if c == UN_CAPITAL_AIN then Some(PSEUDO_SMALL_AIN)
    else if c == UN_SMALL_AIN then Some(PSEUDO_SMALL_AIN)
    else if c == 0x2bf then Some(PSEUDO_SMALL_AIN)
    else if c == 0xec41 then Some(PSEUDO_d_WITH_LINE)
    else if c == UN_H_WITH_LINE then Some(PSEUDO_H_WITH_LINE)
    else if c == UN_H_WITH_CURCUMFLEX then Some(PSEUDO_H_WITH_CURCUMFLEX)
    else if c == UN_h_WITH_CURCUMFLEX then Some(PSEUDO_h_WITH_CURCUMFLEX)
    else if c == 0xec42 then Some(PSEUDO_SMALL_ALEPH)
    else if c == 0xec43 then Some(PSEUDO_SMALL_AIN)
    else if c == UN_i_WITH_INVERTED_BREVE then Some(PSEUDO_i_WITH_INVERTED_BREVE)
    else if c == UN_u_WITH_INVERTED_BREVE then Some(PSEUDO_u_WITH_INVERTED_BREVE)
    else if c == 0xec46 then Some(PSEUDO_SMALL_YOD)
    else if c == 0xec49 then Some(PSEUDO_CAPITAL_YOD)
    else if c == UN_SUFFIX_PRONOMEN_SEPARATOR then Some(PSEUDO_SUFFIX_PRONOMEN_SEPARATOR)
    else if c == UN_k_WITH_DOT then Some(PSEUDO_q)
    else if c == UN_K_WITH_DOT then Some(PSEUDO_Q)
    else if c == UN_s_WITH_ACUTE then Some(PSEUDO_s)
    else if c == UN_S_WITH_ACUTE then Some(PSEUDO_S)
    else if c == UN_t_WITH_DOT then Some(ASC_d)
    else if c == UN_T_WITH_DOT then Some(ASC_D)
    else if c == UN_c_WITH_CARON then Some(PSEUDO_t_WITH_LINE)
    else if c == UN_C_WITH_CARON then Some(PSEUDO_T_WITH_LINE)
    else None
  }

  /** Import entries for Unicode text. In a dictionary literal a later entry
      replaces an earlier one with the same key, so the rest of the literal wins;
      that is how capital aleph and capital ain come to decode to the small forms. */
  function UnicodeImport(c: int): Option<int> {
    var later := UnicodeImportRest(c);
    if later.Some? then later else UnicodeImportFirst(c)
  }

  /** Import entries for the Trlit_CG Times font before 2023. */
  function TrlitCgTimesImport(c: int): Option<int> {
    if c == ASC_E then Some(PSEUDO_E)
    else if c == ASC_e then Some(PSEUDO_e)
    else if c == ASC_x then Some(PSEUDO_h_WITH_BREVE)
    else if c == ASC_A then Some(PSEUDO_SMALL_ALEPH)
    else if c == ASC_a then Some(PSEUDO_SMALL_AIN)
    else if c == ASC_i then Some(PSEUDO_SMALL_YOD)
    else if c == ASC_H then Some(PSEUDO_h_WITH_DOT)
    else if c == ASC_X then Some(PSEUDO_h_WITH_LINE)
    else if c == ASC_c then Some(PSEUDO_s)
    else if c == ASC_S then Some(PSEUDO_s_WITH_CARON)
    else if c == ASC_q then Some(PSEUDO_q)
    else if c == ASC_T then Some(PSEUDO_t_WITH_LINE)
    else if c == ASC_D then Some(PSEUDO_d_WITH_LINE)
    else if c == ASC_o then Some(PSEUDO_q)
    else if c == 0x30 then Some(PSEUDO_H)
    else if c == 0x31 then Some(PSEUDO_H_WITH_DOT)
    else if c == 0x32 then Some(PSEUDO_H_WITH_BREVE)
    else if c == 0x33 then Some(PSEUDO_H_WITH_LINE)
    else if c == 0x34 then Some(PSEUDO_S)
    else if c == 0x35 then Some(PSEUDO_S_WITH_CARON)
    else if c == 0x36 then Some(PSEUDO_T)
    else if c == 0x37 then Some(PSEUDO_T_WITH_LINE)
    else if c == 0x38 then Some(PSEUDO_D)
    else if c == 0x39 then Some(PSEUDO_D_WITH_LINE)
    else if c == ASC_Q then Some(PSEUDO_Q)
    else if c == ASC_I then Some(PSEUDO_CAPITAL_YOD)
    else if c == ASC_O then Some(PSEUDO_Q)
    else if c == ASC_C then Some(PSEUDO_S)
    else if c == ASC_V then Some(PSEUDO_T_WITH_CURCUMFLEX)
    else if c == ASC_v then Some(PSEUDO_t_WITH_CURCUMFLEX)
    else if c == ASC_EQUALS then Some(PSEUDO_SUFFIX_PRONOMEN_SEPARATOR)
    else None
  }

  /** Import entries for the 2023 Trlit_CG Times font. */
  function TrlitCgTimes2023Import(c: int): Option<int> {
    if c == ASC_E then Some(PSEUDO_E)
    else if c == ASC_e then Some(PSEUDO_e)
    else if c == 0x7e then Some(PSEUDO_TOP_LEFT_HALF_BRACKET)
    else if c == ASC_AT then Some(PSEUDO_t_WITH_LINE)
    else if c == ASC_NUMBER then Some(PSEUDO_TOP_RIGHT_HALF_BRACKET)
    else if c == ASC_DOLLAR then Some(PSEUDO_d_WITH_LINE)
    else if c == ASC_ASTERISK then Some(PSEUDO_RIGHT_HALF_RING)
    else if c == ASC_u then Some(PSEUDO_h_WITH_CURCUMFLEX)
    else if c == ASC_Y then Some(PSEUDO_i_WITH_DIAERESIS)
    else if c == ASC_x then Some(PSEUDO_h_WITH_BREVE)
    else if c == ASC_A then Some(PSEUDO_SMALL_ALEPH)
    else if c == ASC_a then Some(PSEUDO_SMALL_AIN)
    else if c == ASC_i then Some(PSEUDO_SMALL_YOD)
    else if c == ASC_H then Some(PSEUDO_h_WITH_DOT)
    else if c == ASC_X then Some(PSEUDO_h_WITH_LINE)
    else if c == ASC_c then Some(PSEUDO_s)
    else if c == ASC_S then Some(PSEUDO_s_WITH_CARON)
    else if c == ASC_q then Some(PSEUDO_k)
    else if c == ASC_T then Some(PSEUDO_t_WITH_LINE)
    else if c == ASC_D then Some(PSEUDO_d_WITH_LINE)
    else if c == ASC_o then Some(ASC_q)
    else if c == 0x30 then Some(ASC_H)
    else if c == 0x31 then Some(PSEUDO_H_WITH_DOT)
    else if c == 0x32 then Some(PSEUDO_H_WITH_BREVE)
    else if c == 0x33 then Some(PSEUDO_H_WITH_LINE)
    else if c == 0x34 then Some(ASC_S)
    else if c == 0x35 then Some(PSEUDO_S_WITH_CARON)
    else if c == 0x36 then Some(ASC_T)
    else if c == 0x37 then Some(PSEUDO_T_WITH_LINE)
    else if c == 0x38 then Some(ASC_D)
    else if c == 0x39 then Some(PSEUDO_D_WITH_LINE)
    else if c == ASC_Q then Some(PSEUDO_K)
    else if c == ASC_I then Some(PSEUDO_CAPITAL_YOD)
    else if c == ASC_O then Some(ASC_Q)
    else if c == ASC_C then Some(PSEUDO_S)
    else if c == ASC_V then Some(PSEUDO_T_WITH_CURCUMFLEX)
    else if c == ASC_v then Some(PSEUDO_t_WITH_CURCUMFLEX)
    else if c == ASC_AMPERSAND then Some(ASC_AMPERSAND)
    else if c == ASC_EXCLAMATION_MARK then Some(ASC_d)
    else if c == ASC_EQUALS then Some(PSEUDO_SUFFIX_PRONOMEN_SEPARATOR)
    else if c == ASC_CIRCUMFLEX_ACCENT then Some(PSEUDO_H_WITH_CURCUMFLEX)
    else if c == 0x3c then Some(PSEUDO_LEFT_ANGLE_BRACKET)
    else if c == 0x3e then Some(PSEUDO_RIGHT_ANGLE_BRACKET)
    else None
  }

  /** Import entries for the Transliteration font. */
  function TransliterationImport(c: int): Option<int> {
    if c == ASC_E then Some(PSEUDO_E)
    else if c == ASC_e then Some(PSEUDO_e)
    else if c == ASC_x then Some(PSEUDO_h_WITH_BREVE)
    else if c == ASC_A then Some(PSEUDO_SMALL_ALEPH)
    else if c == ASC_a then Some(PSEUDO_SMALL_AIN)
    else if c == ASC_i then Some(PSEUDO_SMALL_YOD)
    else if c == ASC_H then Some(PSEUDO_h_WITH_DOT)
    else if c == ASC_X then Some(PSEUDO_h_WITH_LINE)
    else if c == ASC_c then Some(PSEUDO_s)
    else if c == ASC_S then Some(PSEUDO_s_WITH_CARON)
    else if c == ASC_q then Some(PSEUDO_q)
    else if c == ASC_T then Some(PSEUDO_t_WITH_LINE)
    else if c == ASC_D then Some(PSEUDO_d_WITH_LINE)
    else if c == ASC_o then Some(PSEUDO_q)
    else if c == ASC_EXCLAMATION_MARK then Some(PSEUDO_H)
    else if c == ASC_AT then Some(PSEUDO_H_WITH_DOT)
    else if c == ASC_NUMBER then Some(PSEUDO_H_WITH_BREVE)
    else if c == ASC_DOLLAR then Some(PSEUDO_H_WITH_LINE)
    else if c == ASC_PERCENT then Some(PSEUDO_S)
    else if c == ASC_CIRCUMFLEX_ACCENT then Some(PSEUDO_S_WITH_CARON)
    else if c == ASC_YEN then Some(PSEUDO_S_WITH_CARON)
    else if c == ASC_AMPERSAND then Some(PSEUDO_T)
    else if c == ASC_ASTERISK then Some(PSEUDO_T_WITH_LINE)
    else if c == ASC_SECTION then Some(PSEUDO_T_WITH_LINE)
    else if c == ASC_LOW_LINE then Some(PSEUDO_D)
    else if c == ASC_PLUS then Some(PSEUDO_D_WITH_LINE)
    else if c == ASC_Q then Some(PSEUDO_Q)
    else if c == ASC_I then Some(PSEUDO_CAPITAL_YOD)
    else if c == ASC_O then Some(PSEUDO_Q)
    else if c == ASC_C then Some(PSEUDO_S)
    else if c == ASC_V then Some(PSEUDO_h_WITH_CURCUMFLEX)
    else if c == ASC_v then Some(PSEUDO_t_WITH_CURCUMFLEX)
    else if c == ASC_EQUALS then Some(PSEUDO_SUFFIX_PRONOMEN_SEPARATOR)
    else None
  }

  /** Import entries shared by every format. */
  function CommonImport(c: int): Option<int> {
    if c == UN_i_WITH_DIAERESIS then Some(PSEUDO_i_WITH_DIAERESIS)
    else if c == UN_I_WITH_DIAERESIS then Some(PSEUDO_I_WITH_DIAERESIS)
    else if c == ASC_DOT then Some(PSEUDO_DOT)
    else if c == ASC_COLON then Some(PSEUDO_COLON)
    else if c == ASC_SUFFIX_PRONOMEN_SEPARATOR then Some(PSEUDO_SUFFIX_PRONOMEN_SEPARATOR)
    else if c == ASC_b then Some(PSEUDO_b)
    else if c == ASC_d then Some(PSEUDO_d)
    else if c == ASC_f then Some(PSEUDO_f)
    else if c == ASC_g then Some(PSEUDO_g)
    else if c == ASC_h then Some(PSEUDO_h)
    else if c == ASC_j then Some(PSEUDO_SMALL_YOD)
    else if c == ASC_k then Some(PSEUDO_k)
    else if c == ASC_l then Some(PSEUDO_l)
    else if c == ASC_m then Some(PSEUDO_m)
    else if c == ASC_n then Some(PSEUDO_n)
    else if c == ASC_p then Some(PSEUDO_p)
    else if c == ASC_q then Some(PSEUDO_q)
    else if c == ASC_r then Some(PSEUDO_r)
    else if c == ASC_s then Some(PSEUDO_s)
    else if c == ASC_t then Some(PSEUDO_t)
    else if c == ASC_w then Some(PSEUDO_w)
    else if c == ASC_y then Some(PSEUDO_y)
    else if c == ASC_z then Some(PSEUDO_z)
    else if c == ASC_B then Some(PSEUDO_B)
    else if c == ASC_F then Some(PSEUDO_F)
    else if c == ASC_G then Some(PSEUDO_G)
    else if c == ASC_J then Some(PSEUDO_CAPITAL_YOD)
    else if c == ASC_K then Some(PSEUDO_K)
    else if c == ASC_L then Some(PSEUDO_L)
    else if c == ASC_M then Some(PSEUDO_M)
    else if c == ASC_N then Some(PSEUDO_N)
    else if c == ASC_P then Some(PSEUDO_P)
    else if c == ASC_Q then Some(PSEUDO_Q)
    else if c == ASC_R then Some(PSEUDO_R)
    else if c == ASC_W then Some(PSEUDO_W)
    else if c == ASC_Y then Some(PSEUDO_Y)
    else if c == ASC_Z then Some(PSEUDO_Z)
    else None
  }

  /** Unicode export: a canonical unit to one Unicode code point. */
  function UnicodeExport(c: int): Option<int> {
    if c == PSEUDO_SMALL_ALEPH then Some(UN_SMALL_ALEPH)
    else if c == PSEUDO_CAPITAL_ALEPH then Some(UN_CAPITAL_ALEPH)
    else if c == PSEUDO_SMALL_YOD then Some(UN_SMALL_YOD)
    else if c == PSEUDO_CAPITAL_YOD then Some(UN_CAPITAL_YOD)
    else if c == PSEUDO_e then Some(ASC_e)
    else if c == PSEUDO_E then Some(ASC_E)
    else if c == PSEUDO_y then Some(ASC_y)
    else if c == PSEUDO_Y then Some(ASC_Y)
    else if c == PSEUDO_i_WITH_DIAERESIS then Some(UN_i_WITH_DIAERESIS)
    else if c == PSEUDO_I_WITH_DIAERESIS then Some(UN_I_WITH_DIAERESIS)
    else if c == PSEUDO_i_WITH_INVERTED_BREVE then Some(UN_i_WITH_INVERTED_BREVE)
    else if c == PSEUDO_I_WITH_INVERTED_BREVE then Some(UN_I_WITH_INVERTED_BREVE)
    else if c == PSEUDO_RIGHT_HALF_RING then Some(UN_RIGHT_HALF_RING)
    else if c == PSEUDO_SMALL_AIN then Some(UN_SMALL_AIN)
    else if c == PSEUDO_CAPITAL_AIN then Some(UN_CAPITAL_AIN)
    else if c == PSEUDO_w then Some(ASC_w)
    else if c == PSEUDO_W then Some(ASC_W)
    else if c == PSEUDO_u_WITH_INVERTED_BREVE then Some(UN_u_WITH_INVERTED_BREVE)
    else if c == PSEUDO_U_WITH_INVERTED_BREVE then Some(UN_U_WITH_INVERTED_BREVE)
    else if c == PSEUDO_b then Some(ASC_b)
    else if c == PSEUDO_B then Some(ASC_B)
    else if c == PSEUDO_p then Some(ASC_p)
    else if c == PSEUDO_P then Some(ASC_P)
    else if c == PSEUDO_f then Some(ASC_f)
    else if c == PSEUDO_F then Some(ASC_F)
    else if c == PSEUDO_m then Some(ASC_m)
    else if c == PSEUDO_M then Some(ASC_M)
    else if c == PSEUDO_n then Some(ASC_n)
    else if c == PSEUDO_N then Some(ASC_N)
    else if c == PSEUDO_r then Some(ASC_r)
    else if c == PSEUDO_R then Some(ASC_R)
    else if c == PSEUDO_l then Some(ASC_l)
    else if c == PSEUDO_L then Some(ASC_L)
    else if c == PSEUDO_h then Some(ASC_h)
    else if c == PSEUDO_H then Some(ASC_H)
    else if c == PSEUDO_h_WITH_DOT then Some(UN_h_WITH_DOT)
    else if c == PSEUDO_H_WITH_DOT then Some(UN_H_WITH_DOT)
    else if c == PSEUDO_h_WITH_BREVE then Some(UN_h_WITH_BREVE)
    else if c == PSEUDO_H_WITH_BREVE then Some(UN_H_WITH_BREVE)
    else if c == PSEUDO_h_WITH_CURCUMFLEX then Some(UN_h_WITH_CURCUMFLEX)
    else if c == PSEUDO_H_WITH_CURCUMFLEX then Some(UN_H_WITH_CURCUMFLEX)
    else if c == PSEUDO_h_WITH_LINE then Some(UN_h_WITH_LINE)
    else if c == PSEUDO_H_WITH_LINE then Some(UN_H_WITH_LINE)
    else if c == PSEUDO_z then Some(ASC_z)
    else if c == PSEUDO_Z then Some(ASC_Z)
    else if c == PSEUDO_s then Some(ASC_s)
    else if c == PSEUDO_S then Some(ASC_S)
    else if c == PSEUDO_s_WITH_CARON then Some(UN_s_WITH_CARON)
    else if c == PSEUDO_S_WITH_CARON then Some(UN_S_WITH_CARON)
    else if c == PSEUDO_q then Some(ASC_q)
    else if c == PSEUDO_Q then Some(ASC_Q)
    else if c == PSEUDO_k then Some(ASC_k)
    else if c == PSEUDO_K then Some(ASC_K)
    else if c == PSEUDO_g then Some(ASC_g)
    else if c == PSEUDO_G then Some(ASC_G)
    else if c == PSEUDO_t then Some(ASC_t)
    else if c == PSEUDO_T then Some(ASC_T)
    else if c == PSEUDO_t_WITH_CURCUMFLEX then Some(UN_t_WITH_CURCUMFLEX)
    else if c == PSEUDO_T_WITH_CURCUMFLEX then Some(UN_T_WITH_CURCUMFLEX)
    else if c == PSEUDO_t_WITH_LINE then Some(UN_t_WITH_LINE)
    else if c == PSEUDO_T_WITH_LINE then Some(UN_T_WITH_LINE)
    else if c == PSEUDO_d then Some(ASC_d)
    else if c == PSEUDO_D then Some(ASC_D)
    else if c == PSEUDO_d_WITH_LINE then Some(UN_d_WITH_LINE)
    else if c == PSEUDO_D_WITH_LINE then Some(UN_D_WITH_LINE)
    else if c == PSEUDO_SUFFIX_PRONOMEN_SEPARATOR then Some(UN_SUFFIX_PRONOMEN_SEPARATOR)
    else if c == PSEUDO_DOT then Some(ASC_DOT)
    else if c == PSEUDO_COLON then Some(ASC_COLON)
    else if c == PSEUDO_MIDDLE_DOT then Some(UN_MIDDLE_DOT)
    else if c == PSEUDO_TOP_LEFT_HALF_BRACKET then Some(UN_TOP_LEFT_HALF_BRACKET)
    else if c == PSEUDO_TOP_RIGHT_HALF_BRACKET then Some(UN_TOP_RIGHT_HALF_BRACKET)
    else if c == PSEUDO_LEFT_ANGLE_BRACKET then Some(UN_LEFT_ANGLE_BRACKET)
    else if c == PSEUDO_RIGHT_ANGLE_BRACKET then Some(UN_RIGHT_ANGLE_BRACKET)
    else None
  }

  // Export overrides selected by K_WITH_DOT and J_FOR_YOD.
  const UNICODE_EXPORT_K_WITH_DOT: map<int, int> := map[PSEUDO_Q := UN_K_WITH_DOT, PSEUDO_q := UN_k_WITH_DOT]
  const UNICODE_EXPORT_J_FOR_YOD: map<int, int> := map[PSEUDO_CAPITAL_YOD := ASC_J, PSEUDO_SMALL_YOD := ASC_j]

  // Export of the units that Unicode spells as a base letter and a combining mark.
  const UNICODE_EXPORT_MULTICHAR: map<int, seq<int>> := map[
    PSEUDO_i_WITH_INVERTED_BREVE := [ASC_i, UN_COMBINING_INVERTED_BREVE],
    PSEUDO_I_WITH_INVERTED_BREVE := [ASC_I, UN_COMBINING_INVERTED_BREVE],
    PSEUDO_u_WITH_INVERTED_BREVE := [ASC_u, UN_COMBINING_INVERTED_BREVE],
    PSEUDO_U_WITH_INVERTED_BREVE := [ASC_U, UN_COMBINING_INVERTED_BREVE],
    PSEUDO_H_WITH_LINE := [ASC_H, UN_COMBINING_MACRON_BELOW],
    PSEUDO_h_WITH_CURCUMFLEX := [ASC_h, UN_COMBINING_CIRCUMFLEX_BELOW],
    PSEUDO_H_WITH_CURCUMFLEX := [ASC_H, UN_COMBINING_CIRCUMFLEX_BELOW]]

  /** The format's own import entries, before the common ones are merged in. */
  function FormatImport(f: Format, c: int): Option<int> {
    match f
    case UmschriftTtn => TtnImport(c)
    case Transliteration => TransliterationImport(c)
    case TrlitCgTimes => TrlitCgTimesImport(c)
    case TrlitCgTimes2023 => TrlitCgTimes2023Import(c)
    case Unicode => UnicodeImport(c)
  }

  /** The table the decoder consults: the format's entries updated with the
      common ones, so a common entry wins on a key both define. */
  function ImportEntry(f: Format, c: int): Option<int> {
    var common := CommonImport(c);
    if common.Some? then common else FormatImport(f, c)
  }

  /** A lookup in the merged table; a unit it does not hold passes unchanged. */
  function Translate(f: Format, c: int): int {
    var e := ImportEntry(f, c);
    if e.Some? then e.value else c
  }

  /** The merged table of a format as a lookup function. */
  function ImportTable(f: Format): int -> int {
    c => Translate(f, c)
  }
}
