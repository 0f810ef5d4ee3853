/**
 * Whole-text vectors of the decoder and of `to_unicode`: the test that reads
 * the same keyboard row from the Transliteration and the Unicode format, the
 * common entries read from Unicode, and a text mixing transliteration with
 * hieroglyphs and an emoji sequence that `to_unicode` gives back unchanged.
 *
 * The long texts are cut into pieces of at most six positions. Each piece is
 * read on its own (one lemma per piece and format), and the whole is the
 * pieces one after the other.
 */
module ImportVectors {
  import opened Options
  import opened Alphabet
  import opened Tables
  import opened Decoder
  import opened Encoder
  import opened Vectors

  // ASCII units the alphabet has no name for.
  const ASC_TILDE: int := 0x7E
  const ASC_SEMICOLON: int := 0x3B
  const ASC_BACKSLASH: int := 0x5C

  // The two texts of the Transliteration test, piece by piece, and what both
  // read as. The base and combining mark of a Unicode piece of two units
  // stand for the one key of the Transliteration piece beside it.

  // "~!@#" and "~HḤḪ"
  const TRANSLITERATION_0: seq<int> := [ASC_TILDE, ASC_EXCLAMATION_MARK, ASC_AT, ASC_NUMBER]
  const UNICODE_0: seq<int> := [ASC_TILDE, ASC_H, UN_H_WITH_DOT, UN_H_WITH_BREVE]
  const READ_0: seq<int> := [ASC_TILDE, PSEUDO_H, PSEUDO_H_WITH_DOT, PSEUDO_H_WITH_BREVE]

  // "$" and "H̱"
  const TRANSLITERATION_1: seq<int> := [ASC_DOLLAR]
  const UNICODE_1: seq<int> := [ASC_H, UN_COMBINING_MACRON_BELOW]
  const READ_1: seq<int> := [PSEUDO_H_WITH_LINE]

  // "%^&*()" and "SŠTṮ()"
  const TRANSLITERATION_2: seq<int> :=
    [ASC_PERCENT, ASC_CIRCUMFLEX_ACCENT, ASC_AMP, ASC_ASTERISK, ASC_LEFT_PARENTHESIS,
     ASC_RIGHT_PARENTHESIS]
  const UNICODE_2: seq<int> :=
    [ASC_S, UN_S_WITH_CARON, ASC_T, UN_T_WITH_LINE, ASC_LEFT_PARENTHESIS, ASC_RIGHT_PARENTHESIS]
  const READ_2: seq<int> :=
    [PSEUDO_S, PSEUDO_S_WITH_CARON, PSEUDO_T, PSEUDO_T_WITH_LINE, ASC_LEFT_PARENTHESIS,
     ASC_RIGHT_PARENTHESIS]

  // "_+QWER" and "DḎḲWER"
  const TRANSLITERATION_3: seq<int> := [ASC_LOW_LINE, ASC_PLUS, ASC_Q, ASC_W, ASC_E, ASC_R]
  const UNICODE_3: seq<int> := [ASC_D, UN_D_WITH_LINE, UN_K_WITH_DOT, ASC_W, ASC_E, ASC_R]
  const READ_3: seq<int> := [PSEUDO_D, PSEUDO_D_WITH_LINE, PSEUDO_Q, PSEUDO_W, PSEUDO_E, PSEUDO_R]

  // "TYUIOP" and "ṯYUꞼQP"
  const TRANSLITERATION_4: seq<int> := [ASC_T, ASC_Y, ASC_U, ASC_I, ASC_O, ASC_P]
  const UNICODE_4: seq<int> := [UN_t_WITH_LINE, ASC_Y, ASC_U, UN_CAPITAL_YOD, ASC_Q, ASC_P]
  const READ_4: seq<int> :=
    [PSEUDO_t_WITH_LINE, PSEUDO_Y, ASC_U, PSEUDO_CAPITAL_YOD, PSEUDO_Q, PSEUDO_P]

  // "{}ASDF" and "{}ꜣšḏF"
  const TRANSLITERATION_5: seq<int> :=
    [ASC_LEFT_CURLY_BRACKET, ASC_RIGHT_CURLY_BRACKET, ASC_A, ASC_S, ASC_D, ASC_F]
  const UNICODE_5: seq<int> :=
    [ASC_LEFT_CURLY_BRACKET, ASC_RIGHT_CURLY_BRACKET, UN_SMALL_ALEPH, UN_s_WITH_CARON,
     UN_d_WITH_LINE, ASC_F]
  const READ_5: seq<int> :=
    [ASC_LEFT_CURLY_BRACKET, ASC_RIGHT_CURLY_BRACKET, PSEUDO_SMALL_ALEPH, PSEUDO_s_WITH_CARON,
     PSEUDO_d_WITH_LINE, PSEUDO_F]

  // "GHJKL:" and "GḥJKL:"
  const TRANSLITERATION_6: seq<int> := [ASC_G, ASC_H, ASC_J, ASC_K, ASC_L, ASC_COLON]
  const UNICODE_6: seq<int> := [ASC_G, UN_h_WITH_DOT, ASC_J, ASC_K, ASC_L, ASC_COLON]
  const READ_6: seq<int> :=
    [PSEUDO_G, PSEUDO_h_WITH_DOT, PSEUDO_CAPITAL_YOD, PSEUDO_K, PSEUDO_L, PSEUDO_COLON]

  // "||ZXC" and "||ZẖŚ"
  const TRANSLITERATION_7: seq<int> := [ASC_VERTICAL_LINE, ASC_VERTICAL_LINE, ASC_Z, ASC_X, ASC_C]
  const UNICODE_7: seq<int> :=
    [ASC_VERTICAL_LINE, ASC_VERTICAL_LINE, ASC_Z, UN_h_WITH_LINE, UN_S_WITH_ACUTE]
  const READ_7: seq<int> :=
    [ASC_VERTICAL_LINE, ASC_VERTICAL_LINE, PSEUDO_Z, PSEUDO_h_WITH_LINE, PSEUDO_S]

  // "V" and "h̭"
  const TRANSLITERATION_8: seq<int> := [ASC_V]
  const UNICODE_8: seq<int> := [ASC_h, UN_COMBINING_CIRCUMFLEX_BELOW]
  const READ_8: seq<int> := [PSEUDO_h_WITH_CURCUMFLEX]

  // "BNM<>?" and "BNM<>?"
  const TRANSLITERATION_9: seq<int> :=
    [ASC_B, ASC_N, ASC_M, ASC_LESS_THAN_SIGN, ASC_GREATER_THAN_SIGN, ASC_QUESTION_MARK]
  const UNICODE_9: seq<int> :=
    [ASC_B, ASC_N, ASC_M, ASC_LESS_THAN_SIGN, ASC_GREATER_THAN_SIGN, ASC_QUESTION_MARK]
  const READ_9: seq<int> :=
    [PSEUDO_B, PSEUDO_N, PSEUDO_M, ASC_LESS_THAN_SIGN, ASC_GREATER_THAN_SIGN, ASC_QUESTION_MARK]

  // "qwerty" and "ḳwerty"
  const TRANSLITERATION_10: seq<int> := [ASC_q, ASC_w, ASC_e, ASC_r, ASC_t, ASC_y]
  const UNICODE_10: seq<int> := [UN_k_WITH_DOT, ASC_w, ASC_e, ASC_r, ASC_t, ASC_y]
  const READ_10: seq<int> := [PSEUDO_q, PSEUDO_w, PSEUDO_e, PSEUDO_r, PSEUDO_t, PSEUDO_y]

  // "uiop[]" and "uꞽqp[]"
  const TRANSLITERATION_11: seq<int> :=
    [ASC_u, ASC_i, ASC_o, ASC_p, ASC_LEFT_SQUARE_BRACKET, ASC_RIGHT_SQUARE_BRACKET]
  const UNICODE_11: seq<int> :=
    [ASC_u, UN_SMALL_YOD, ASC_q, ASC_p, ASC_LEFT_SQUARE_BRACKET, ASC_RIGHT_SQUARE_BRACKET]
  const READ_11: seq<int> :=
    [ASC_u, PSEUDO_SMALL_YOD, PSEUDO_q, PSEUDO_p, ASC_LEFT_SQUARE_BRACKET, ASC_RIGHT_SQUARE_BRACKET]

  // "asdfgh" and "ꜥsdfgh"
  const TRANSLITERATION_12: seq<int> := [ASC_a, ASC_s, ASC_d, ASC_f, ASC_g, ASC_h]
  const UNICODE_12: seq<int> := [UN_SMALL_AIN, ASC_s, ASC_d, ASC_f, ASC_g, ASC_h]
  const READ_12: seq<int> := [PSEUDO_SMALL_AIN, PSEUDO_s, PSEUDO_d, PSEUDO_f, PSEUDO_g, PSEUDO_h]

  // "jkl;'\" and "jkl;'\"
  const TRANSLITERATION_13: seq<int> :=
    [ASC_j, ASC_k, ASC_l, ASC_SEMICOLON, ASC_APOSTROPHE, ASC_BACKSLASH]
  const UNICODE_13: seq<int> := [ASC_j, ASC_k, ASC_l, ASC_SEMICOLON, ASC_APOSTROPHE, ASC_BACKSLASH]
  const READ_13: seq<int> :=
    [PSEUDO_SMALL_YOD, PSEUDO_k, PSEUDO_l, ASC_SEMICOLON, ASC_APOSTROPHE, ASC_BACKSLASH]

  // "\zxcvb" and "\zḫśṱb"
  const TRANSLITERATION_14: seq<int> := [ASC_BACKSLASH, ASC_z, ASC_x, ASC_c, ASC_v, ASC_b]
  const UNICODE_14: seq<int> :=
    [ASC_BACKSLASH, ASC_z, UN_h_WITH_BREVE, UN_s_WITH_ACUTE, UN_t_WITH_CURCUMFLEX, ASC_b]
  const READ_14: seq<int> :=
    [ASC_BACKSLASH, PSEUDO_z, PSEUDO_h_WITH_BREVE, PSEUDO_s, PSEUDO_t_WITH_CURCUMFLEX, PSEUDO_b]

  // "nm,./" and "nm,./"
  const TRANSLITERATION_15: seq<int> := [ASC_n, ASC_m, ASC_COMMA, ASC_DOT, ASC_SLASH]
  const UNICODE_15: seq<int> := [ASC_n, ASC_m, ASC_COMMA, ASC_DOT, ASC_SLASH]
  const READ_15: seq<int> := [PSEUDO_n, PSEUDO_m, ASC_COMMA, PSEUDO_DOT, ASC_SLASH]

  // The texts from each piece on.
  const TRANSLITERATION_FROM_0: seq<int> := TRANSLITERATION_0 + TRANSLITERATION_FROM_1
  const TRANSLITERATION_FROM_1: seq<int> := TRANSLITERATION_1 + TRANSLITERATION_FROM_2
  const TRANSLITERATION_FROM_2: seq<int> := TRANSLITERATION_2 + TRANSLITERATION_FROM_3
  const TRANSLITERATION_FROM_3: seq<int> := TRANSLITERATION_3 + TRANSLITERATION_FROM_4
  const TRANSLITERATION_FROM_4: seq<int> := TRANSLITERATION_4 + TRANSLITERATION_FROM_5
  const TRANSLITERATION_FROM_5: seq<int> := TRANSLITERATION_5 + TRANSLITERATION_FROM_6
  const TRANSLITERATION_FROM_6: seq<int> := TRANSLITERATION_6 + TRANSLITERATION_FROM_7
  const TRANSLITERATION_FROM_7: seq<int> := TRANSLITERATION_7 + TRANSLITERATION_FROM_8
  const TRANSLITERATION_FROM_8: seq<int> := TRANSLITERATION_8 + TRANSLITERATION_FROM_9
  const TRANSLITERATION_FROM_9: seq<int> := TRANSLITERATION_9 + TRANSLITERATION_FROM_10
  const TRANSLITERATION_FROM_10: seq<int> := TRANSLITERATION_10 + TRANSLITERATION_FROM_11
  const TRANSLITERATION_FROM_11: seq<int> := TRANSLITERATION_11 + TRANSLITERATION_FROM_12
  const TRANSLITERATION_FROM_12: seq<int> := TRANSLITERATION_12 + TRANSLITERATION_FROM_13
  const TRANSLITERATION_FROM_13: seq<int> := TRANSLITERATION_13 + TRANSLITERATION_FROM_14
  const TRANSLITERATION_FROM_14: seq<int> := TRANSLITERATION_14 + TRANSLITERATION_FROM_15
  const TRANSLITERATION_FROM_15: seq<int> := TRANSLITERATION_15
  const UNICODE_FROM_0: seq<int> := UNICODE_0 + UNICODE_FROM_1
  const UNICODE_FROM_1: seq<int> := UNICODE_1 + UNICODE_FROM_2
  const UNICODE_FROM_2: seq<int> := UNICODE_2 + UNICODE_FROM_3
  const UNICODE_FROM_3: seq<int> := UNICODE_3 + UNICODE_FROM_4
  const UNICODE_FROM_4: seq<int> := UNICODE_4 + UNICODE_FROM_5
  const UNICODE_FROM_5: seq<int> := UNICODE_5 + UNICODE_FROM_6
  const UNICODE_FROM_6: seq<int> := UNICODE_6 + UNICODE_FROM_7
  const UNICODE_FROM_7: seq<int> := UNICODE_7 + UNICODE_FROM_8
  const UNICODE_FROM_8: seq<int> := UNICODE_8 + UNICODE_FROM_9
  const UNICODE_FROM_9: seq<int> := UNICODE_9 + UNICODE_FROM_10
  const UNICODE_FROM_10: seq<int> := UNICODE_10 + UNICODE_FROM_11
  const UNICODE_FROM_11: seq<int> := UNICODE_11 + UNICODE_FROM_12
  const UNICODE_FROM_12: seq<int> := UNICODE_12 + UNICODE_FROM_13
  const UNICODE_FROM_13: seq<int> := UNICODE_13 + UNICODE_FROM_14
  const UNICODE_FROM_14: seq<int> := UNICODE_14 + UNICODE_FROM_15
  const UNICODE_FROM_15: seq<int> := UNICODE_15

  const TRANSLITERATION_TEXT: seq<int> := TRANSLITERATION_FROM_0
  const UNICODE_TEXT: seq<int> := UNICODE_FROM_0
  const READ_TEXT: seq<int> :=
    READ_0 + (READ_1 + (READ_2 + (READ_3 + (READ_4 + (READ_5 + (READ_6 + (READ_7 + (READ_8 +
    (READ_9 + (READ_10 + (READ_11 + (READ_12 + (READ_13 + (READ_14 + (READ_15)))))))))))))))

  lemma CircumflexBelowOnSmallH()
    ensures Compose(UN_COMBINING_CIRCUMFLEX_BELOW, ASC_h) == Some(PSEUDO_h_WITH_CURCUMFLEX)
  {
  }

  lemma TransliterationPiece0()
    ensures DecodeRun(TRANSLITERATION_FROM_0, ImportTable(Transliteration), NoYod) ==
      Prepend(READ_0, DecodeRun(TRANSLITERATION_FROM_1, ImportTable(Transliteration), NoYod))
  {
    var t, table, out := TRANSLITERATION_0, ImportTable(Transliteration), READ_0;
    forall k | 0 <= k < |t|
      ensures table(t[k]) == out[k] != 0
    {
      if k == 0 { TransliterationReadsTilde(); }
      else if k == 1 { TransliterationReadsExclamationMark(); }
      else if k == 2 { TransliterationReadsAt(); }
      else { TransliterationReadsNumber(); }
    }
    TranslateOneForOne(t, out, table);
    DecodePlainThen(t, TRANSLITERATION_FROM_1, table);
  }

  lemma UnicodePiece0()
    ensures DecodeRun(UNICODE_FROM_0, ImportTable(Unicode), NoYod) ==
      Prepend(READ_0, DecodeRun(UNICODE_FROM_1, ImportTable(Unicode), NoYod))
  {
    var t, table, out := UNICODE_0, ImportTable(Unicode), READ_0;
    forall k | 0 <= k < |t|
      ensures table(t[k]) == out[k] != 0
    {
      if k == 0 { UnicodeReadsTilde(); }
      else if k == 1 { ReadsCapitalH(); }
      else if k == 2 { UnicodeReadsCapitalHWithDot(); }
      else { ReadsCapitalHWithBreve(); }
    }
    TranslateOneForOne(t, out, table);
    DecodePlainThen(t, UNICODE_FROM_1, table);
  }

  lemma TransliterationPiece1()
    ensures DecodeRun(TRANSLITERATION_FROM_1, ImportTable(Transliteration), NoYod) ==
      Prepend(READ_1, DecodeRun(TRANSLITERATION_FROM_2, ImportTable(Transliteration), NoYod))
  {
    var t, table, out := TRANSLITERATION_1, ImportTable(Transliteration), READ_1;
    forall k | 0 <= k < |t|
      ensures table(t[k]) == out[k] != 0
    {
      TransliterationReadsDollar();
    }
    TranslateOneForOne(t, out, table);
    DecodePlainThen(t, TRANSLITERATION_FROM_2, table);
  }

  lemma UnicodePiece1()
    ensures DecodeRun(UNICODE_FROM_1, ImportTable(Unicode), NoYod) ==
      Prepend(READ_1, DecodeRun(UNICODE_FROM_2, ImportTable(Unicode), NoYod))
  {
    MacronBelowOnH();
    DecodeComposed(ASC_H, UN_COMBINING_MACRON_BELOW, UNICODE_FROM_2, ImportTable(Unicode));
  }

  lemma TransliterationPiece2()
    ensures DecodeRun(TRANSLITERATION_FROM_2, ImportTable(Transliteration), NoYod) ==
      Prepend(READ_2, DecodeRun(TRANSLITERATION_FROM_3, ImportTable(Transliteration), NoYod))
  {
    var t, table, out := TRANSLITERATION_2, ImportTable(Transliteration), READ_2;
    forall k | 0 <= k < |t|
      ensures table(t[k]) == out[k] != 0
    {
      if k == 0 { TransliterationReadsPercent(); }
      else if k == 1 { TransliterationReadsCircumflexAccent(); }
      else if k == 2 { TransliterationReadsAmp(); }
      else if k == 3 { TransliterationReadsAsterisk(); }
      else if k == 4 { TransliterationReadsLeftParenthesis(); }
      else { TransliterationReadsRightParenthesis(); }
    }
    TranslateOneForOne(t, out, table);
    DecodePlainThen(t, TRANSLITERATION_FROM_3, table);
  }

  lemma UnicodePiece2()
    ensures DecodeRun(UNICODE_FROM_2, ImportTable(Unicode), NoYod) ==
      Prepend(READ_2, DecodeRun(UNICODE_FROM_3, ImportTable(Unicode), NoYod))
  {
    var t, table, out := UNICODE_2, ImportTable(Unicode), READ_2;
    forall k | 0 <= k < |t|
      ensures table(t[k]) == out[k] != 0
    {
      if k == 0 { UnicodeReadsCapitalS(); }
      else if k == 1 { UnicodeReadsCapitalSWithCaron(); }
      else if k == 2 { UnicodeReadsCapitalT(); }
      else if k == 3 { UnicodeReadsCapitalTWithLine(); }
      else if k == 4 { UnicodeReadsLeftParenthesis(); }
      else { UnicodeReadsRightParenthesis(); }
    }
    TranslateOneForOne(t, out, table);
    DecodePlainThen(t, UNICODE_FROM_3, table);
  }

  lemma TransliterationPiece3()
    ensures DecodeRun(TRANSLITERATION_FROM_3, ImportTable(Transliteration), NoYod) ==
      Prepend(READ_3, DecodeRun(TRANSLITERATION_FROM_4, ImportTable(Transliteration), NoYod))
  {
    var t, table, out := TRANSLITERATION_3, ImportTable(Transliteration), READ_3;
    forall k | 0 <= k < |t|
      ensures table(t[k]) == out[k] != 0
    {
      if k == 0 { TransliterationReadsLowLine(); }
      else if k == 1 { TransliterationReadsPlus(); }
      else if k == 2 { TransliterationReadsCapitalQ(); }
      else if k == 3 { TransliterationReadsCapitalW(); }
      else if k == 4 { TransliterationReadsCapitalE(); }
      else { TransliterationReadsCapitalR(); }
    }
    TranslateOneForOne(t, out, table);
    DecodePlainThen(t, TRANSLITERATION_FROM_4, table);
  }

  lemma UnicodePiece3()
    ensures DecodeRun(UNICODE_FROM_3, ImportTable(Unicode), NoYod) ==
      Prepend(READ_3, DecodeRun(UNICODE_FROM_4, ImportTable(Unicode), NoYod))
  {
    var t, table, out := UNICODE_3, ImportTable(Unicode), READ_3;
    forall k | 0 <= k < |t|
      ensures table(t[k]) == out[k] != 0
    {
      if k == 0 { UnicodeReadsCapitalD(); }
      else if k == 1 { UnicodeReadsCapitalDWithLine(); }
      else if k == 2 { UnicodeReadsCapitalKWithDot(); }
      else if k == 3 { UnicodeReadsCapitalW(); }
      else if k == 4 { UnicodeReadsCapitalE(); }
      else { UnicodeReadsCapitalR(); }
    }
    TranslateOneForOne(t, out, table);
    DecodePlainThen(t, UNICODE_FROM_4, table);
  }

  lemma TransliterationPiece4()
    ensures DecodeRun(TRANSLITERATION_FROM_4, ImportTable(Transliteration), NoYod) ==
      Prepend(READ_4, DecodeRun(TRANSLITERATION_FROM_5, ImportTable(Transliteration), NoYod))
  {
    var t, table, out := TRANSLITERATION_4, ImportTable(Transliteration), READ_4;
    forall k | 0 <= k < |t|
      ensures table(t[k]) == out[k] != 0
    {
      if k == 0 { TransliterationReadsCapitalT(); }
      else if k == 1 { TransliterationReadsCapitalY(); }
      else if k == 2 { TransliterationReadsCapitalU(); }
      else if k == 3 { TransliterationReadsCapitalI(); }
      else if k == 4 { TransliterationReadsCapitalO(); }
      else { TransliterationReadsCapitalP(); }
    }
    TranslateOneForOne(t, out, table);
    DecodePlainThen(t, TRANSLITERATION_FROM_5, table);
  }

  lemma UnicodePiece4()
    ensures DecodeRun(UNICODE_FROM_4, ImportTable(Unicode), NoYod) ==
      Prepend(READ_4, DecodeRun(UNICODE_FROM_5, ImportTable(Unicode), NoYod))
  {
    var t, table, out := UNICODE_4, ImportTable(Unicode), READ_4;
    forall k | 0 <= k < |t|
      ensures table(t[k]) == out[k] != 0
    {
      if k == 0 { UnicodeReadsTWithLine(); }
      else if k == 1 { ReadsCapitalY(); }
      else if k == 2 { UnicodeReadsCapitalU(); }
      else if k == 3 { ReadsCapitalYod(); }
      else if k == 4 { ReadsCapitalQ(); }
      else { UnicodeReadsCapitalP(); }
    }
    TranslateOneForOne(t, out, table);
    DecodePlainThen(t, UNICODE_FROM_5, table);
  }

  lemma TransliterationPiece5()
    ensures DecodeRun(TRANSLITERATION_FROM_5, ImportTable(Transliteration), NoYod) ==
      Prepend(READ_5, DecodeRun(TRANSLITERATION_FROM_6, ImportTable(Transliteration), NoYod))
  {
    var t, table, out := TRANSLITERATION_5, ImportTable(Transliteration), READ_5;
    forall k | 0 <= k < |t|
      ensures table(t[k]) == out[k] != 0
    {
      if k == 0 { TransliterationReadsLeftCurlyBracket(); }
      else if k == 1 { TransliterationReadsRightCurlyBracket(); }
      else if k == 2 { TransliterationReadsCapitalA(); }
      else if k == 3 { TransliterationReadsCapitalS(); }
      else if k == 4 { TransliterationReadsCapitalD(); }
      else { TransliterationReadsCapitalF(); }
    }
    TranslateOneForOne(t, out, table);
    DecodePlainThen(t, TRANSLITERATION_FROM_6, table);
  }

  lemma UnicodePiece5()
    ensures DecodeRun(UNICODE_FROM_5, ImportTable(Unicode), NoYod) ==
      Prepend(READ_5, DecodeRun(UNICODE_FROM_6, ImportTable(Unicode), NoYod))
  {
    var t, table, out := UNICODE_5, ImportTable(Unicode), READ_5;
    forall k | 0 <= k < |t|
      ensures table(t[k]) == out[k] != 0
    {
      if k == 0 { UnicodeReadsLeftCurlyBracket(); }
      else if k == 1 { UnicodeReadsRightCurlyBracket(); }
      else if k == 2 { ReadsSmallAleph(); }
      else if k == 3 { UnicodeReadsSWithCaron(); }
      else if k == 4 { UnicodeReadsDWithLine(); }
      else { UnicodeReadsCapitalF(); }
    }
    TranslateOneForOne(t, out, table);
    DecodePlainThen(t, UNICODE_FROM_6, table);
  }

  lemma TransliterationPiece6()
    ensures DecodeRun(TRANSLITERATION_FROM_6, ImportTable(Transliteration), NoYod) ==
      Prepend(READ_6, DecodeRun(TRANSLITERATION_FROM_7, ImportTable(Transliteration), NoYod))
  {
    var t, table, out := TRANSLITERATION_6, ImportTable(Transliteration), READ_6;
    forall k | 0 <= k < |t|
      ensures table(t[k]) == out[k] != 0
    {
      if k == 0 { TransliterationReadsCapitalG(); }
      else if k == 1 { TransliterationReadsCapitalH(); }
      else if k == 2 { TransliterationReadsCapitalJ(); }
      else if k == 3 { TransliterationReadsCapitalK(); }
      else if k == 4 { TransliterationReadsCapitalL(); }
      else { TransliterationReadsColon(); }
    }
    TranslateOneForOne(t, out, table);
    DecodePlainThen(t, TRANSLITERATION_FROM_7, table);
  }

  lemma UnicodePiece6()
    ensures DecodeRun(UNICODE_FROM_6, ImportTable(Unicode), NoYod) ==
      Prepend(READ_6, DecodeRun(UNICODE_FROM_7, ImportTable(Unicode), NoYod))
  {
    var t, table, out := UNICODE_6, ImportTable(Unicode), READ_6;
    forall k | 0 <= k < |t|
      ensures table(t[k]) == out[k] != 0
    {
      if k == 0 { UnicodeReadsCapitalG(); }
      else if k == 1 { UnicodeReadsHWithDot(); }
      else if k == 2 { UnicodeReadsCapitalJ(); }
      else if k == 3 { UnicodeReadsCapitalK(); }
      else if k == 4 { UnicodeReadsCapitalL(); }
      else { UnicodeReadsColon(); }
    }
    TranslateOneForOne(t, out, table);
    DecodePlainThen(t, UNICODE_FROM_7, table);
  }

  lemma TransliterationPiece7()
    ensures DecodeRun(TRANSLITERATION_FROM_7, ImportTable(Transliteration), NoYod) ==
      Prepend(READ_7, DecodeRun(TRANSLITERATION_FROM_8, ImportTable(Transliteration), NoYod))
  {
    var t, table, out := TRANSLITERATION_7, ImportTable(Transliteration), READ_7;
    forall k | 0 <= k < |t|
      ensures table(t[k]) == out[k] != 0
    {
      if k == 0 { TransliterationReadsVerticalLine(); }
      else if k == 1 { TransliterationReadsVerticalLine(); }
      else if k == 2 { TransliterationReadsCapitalZ(); }
      else if k == 3 { TransliterationReadsCapitalX(); }
      else { TransliterationReadsCapitalC(); }
    }
    TranslateOneForOne(t, out, table);
    DecodePlainThen(t, TRANSLITERATION_FROM_8, table);
  }

  lemma UnicodePiece7()
    ensures DecodeRun(UNICODE_FROM_7, ImportTable(Unicode), NoYod) ==
      Prepend(READ_7, DecodeRun(UNICODE_FROM_8, ImportTable(Unicode), NoYod))
  {
    var t, table, out := UNICODE_7, ImportTable(Unicode), READ_7;
    forall k | 0 <= k < |t|
      ensures table(t[k]) == out[k] != 0
    {
      if k == 0 { UnicodeReadsVerticalLine(); }
      else if k == 1 { UnicodeReadsVerticalLine(); }
      else if k == 2 { UnicodeReadsCapitalZ(); }
      else if k == 3 { ReadsHWithLine(); }
      else { UnicodeReadsCapitalSWithAcute(); }
    }
    TranslateOneForOne(t, out, table);
    DecodePlainThen(t, UNICODE_FROM_8, table);
  }

  lemma TransliterationPiece8()
    ensures DecodeRun(TRANSLITERATION_FROM_8, ImportTable(Transliteration), NoYod) ==
      Prepend(READ_8, DecodeRun(TRANSLITERATION_FROM_9, ImportTable(Transliteration), NoYod))
  {
    var t, table, out := TRANSLITERATION_8, ImportTable(Transliteration), READ_8;
    forall k | 0 <= k < |t|
      ensures table(t[k]) == out[k] != 0
    {
      TransliterationReadsCapitalV();
    }
    TranslateOneForOne(t, out, table);
    DecodePlainThen(t, TRANSLITERATION_FROM_9, table);
  }

  lemma UnicodePiece8()
    ensures DecodeRun(UNICODE_FROM_8, ImportTable(Unicode), NoYod) ==
      Prepend(READ_8, DecodeRun(UNICODE_FROM_9, ImportTable(Unicode), NoYod))
  {
    CircumflexBelowOnSmallH();
    DecodeComposed(ASC_h, UN_COMBINING_CIRCUMFLEX_BELOW, UNICODE_FROM_9, ImportTable(Unicode));
  }

  lemma TransliterationPiece9()
    ensures DecodeRun(TRANSLITERATION_FROM_9, ImportTable(Transliteration), NoYod) ==
      Prepend(READ_9, DecodeRun(TRANSLITERATION_FROM_10, ImportTable(Transliteration), NoYod))
  {
    var t, table, out := TRANSLITERATION_9, ImportTable(Transliteration), READ_9;
    forall k | 0 <= k < |t|
      ensures table(t[k]) == out[k] != 0
    {
      if k == 0 { TransliterationReadsCapitalB(); }
      else if k == 1 { TransliterationReadsCapitalN(); }
      else if k == 2 { TransliterationReadsCapitalM(); }
      else if k == 3 { TransliterationReadsLessThanSign(); }
      else if k == 4 { TransliterationReadsGreaterThanSign(); }
      else { TransliterationReadsQuestionMark(); }
    }
    TranslateOneForOne(t, out, table);
    DecodePlainThen(t, TRANSLITERATION_FROM_10, table);
  }

  lemma UnicodePiece9()
    ensures DecodeRun(UNICODE_FROM_9, ImportTable(Unicode), NoYod) ==
      Prepend(READ_9, DecodeRun(UNICODE_FROM_10, ImportTable(Unicode), NoYod))
  {
    var t, table, out := UNICODE_9, ImportTable(Unicode), READ_9;
    forall k | 0 <= k < |t|
      ensures table(t[k]) == out[k] != 0
    {
      if k == 0 { UnicodeReadsCapitalB(); }
      else if k == 1 { UnicodeReadsCapitalN(); }
      else if k == 2 { UnicodeReadsCapitalM(); }
      else if k == 3 { UnicodeReadsLessThanSign(); }
      else if k == 4 { UnicodeReadsGreaterThanSign(); }
      else { UnicodeReadsQuestionMark(); }
    }
    TranslateOneForOne(t, out, table);
    DecodePlainThen(t, UNICODE_FROM_10, table);
  }

  lemma TransliterationPiece10()
    ensures DecodeRun(TRANSLITERATION_FROM_10, ImportTable(Transliteration), NoYod) ==
      Prepend(READ_10, DecodeRun(TRANSLITERATION_FROM_11, ImportTable(Transliteration), NoYod))
  {
    var t, table, out := TRANSLITERATION_10, ImportTable(Transliteration), READ_10;
    forall k | 0 <= k < |t|
      ensures table(t[k]) == out[k] != 0
    {
      if k == 0 { TransliterationReadsQ(); }
      else if k == 1 { TransliterationReadsW(); }
      else if k == 2 { TransliterationReadsE(); }
      else if k == 3 { TransliterationReadsR(); }
      else if k == 4 { TransliterationReadsT(); }
      else { TransliterationReadsY(); }
    }
    TranslateOneForOne(t, out, table);
    DecodePlainThen(t, TRANSLITERATION_FROM_11, table);
  }

  lemma UnicodePiece10()
    ensures DecodeRun(UNICODE_FROM_10, ImportTable(Unicode), NoYod) ==
      Prepend(READ_10, DecodeRun(UNICODE_FROM_11, ImportTable(Unicode), NoYod))
  {
    var t, table, out := UNICODE_10, ImportTable(Unicode), READ_10;
    forall k | 0 <= k < |t|
      ensures table(t[k]) == out[k] != 0
    {
      if k == 0 { UnicodeReadsKWithDot(); }
      else if k == 1 { UnicodeReadsW(); }
      else if k == 2 { UnicodeReadsE(); }
      else if k == 3 { UnicodeReadsR(); }
      else if k == 4 { ReadsT(); }
      else { UnicodeReadsY(); }
    }
    TranslateOneForOne(t, out, table);
    DecodePlainThen(t, UNICODE_FROM_11, table);
  }

  lemma TransliterationPiece11()
    ensures DecodeRun(TRANSLITERATION_FROM_11, ImportTable(Transliteration), NoYod) ==
      Prepend(READ_11, DecodeRun(TRANSLITERATION_FROM_12, ImportTable(Transliteration), NoYod))
  {
    var t, table, out := TRANSLITERATION_11, ImportTable(Transliteration), READ_11;
    forall k | 0 <= k < |t|
      ensures table(t[k]) == out[k] != 0
    {
      if k == 0 { TransliterationReadsU(); }
      else if k == 1 { TransliterationReadsI(); }
      else if k == 2 { TransliterationReadsO(); }
      else if k == 3 { TransliterationReadsP(); }
      else if k == 4 { TransliterationReadsLeftSquareBracket(); }
      else { TransliterationReadsRightSquareBracket(); }
    }
    TranslateOneForOne(t, out, table);
    DecodePlainThen(t, TRANSLITERATION_FROM_12, table);
  }

  lemma UnicodePiece11()
    ensures DecodeRun(UNICODE_FROM_11, ImportTable(Unicode), NoYod) ==
      Prepend(READ_11, DecodeRun(UNICODE_FROM_12, ImportTable(Unicode), NoYod))
  {
    var t, table, out := UNICODE_11, ImportTable(Unicode), READ_11;
    forall k | 0 <= k < |t|
      ensures table(t[k]) == out[k] != 0
    {
      if k == 0 { UnicodeReadsU(); }
      else if k == 1 { ReadsSmallYod(); }
      else if k == 2 { ReadsQ(); }
      else if k == 3 { UnicodeReadsP(); }
      else if k == 4 { UnicodeReadsLeftSquareBracket(); }
      else { UnicodeReadsRightSquareBracket(); }
    }
    TranslateOneForOne(t, out, table);
    DecodePlainThen(t, UNICODE_FROM_12, table);
  }

  lemma TransliterationPiece12()
    ensures DecodeRun(TRANSLITERATION_FROM_12, ImportTable(Transliteration), NoYod) ==
      Prepend(READ_12, DecodeRun(TRANSLITERATION_FROM_13, ImportTable(Transliteration), NoYod))
  {
    var t, table, out := TRANSLITERATION_12, ImportTable(Transliteration), READ_12;
    forall k | 0 <= k < |t|
      ensures table(t[k]) == out[k] != 0
    {
      if k == 0 { TransliterationReadsA(); }
      else if k == 1 { TransliterationReadsS(); }
      else if k == 2 { TransliterationReadsD(); }
      else if k == 3 { TransliterationReadsF(); }
      else if k == 4 { TransliterationReadsG(); }
      else { TransliterationReadsH(); }
    }
    TranslateOneForOne(t, out, table);
    DecodePlainThen(t, TRANSLITERATION_FROM_13, table);
  }

  lemma UnicodePiece12()
    ensures DecodeRun(UNICODE_FROM_12, ImportTable(Unicode), NoYod) ==
      Prepend(READ_12, DecodeRun(UNICODE_FROM_13, ImportTable(Unicode), NoYod))
  {
    var t, table, out := UNICODE_12, ImportTable(Unicode), READ_12;
    forall k | 0 <= k < |t|
      ensures table(t[k]) == out[k] != 0
    {
      if k == 0 { ReadsSmallAin(); }
      else if k == 1 { UnicodeReadsS(); }
      else if k == 2 { UnicodeReadsD(); }
      else if k == 3 { UnicodeReadsF(); }
      else if k == 4 { UnicodeReadsG(); }
      else { ReadsH(); }
    }
    TranslateOneForOne(t, out, table);
    DecodePlainThen(t, UNICODE_FROM_13, table);
  }

  lemma TransliterationPiece13()
    ensures DecodeRun(TRANSLITERATION_FROM_13, ImportTable(Transliteration), NoYod) ==
      Prepend(READ_13, DecodeRun(TRANSLITERATION_FROM_14, ImportTable(Transliteration), NoYod))
  {
    var t, table, out := TRANSLITERATION_13, ImportTable(Transliteration), READ_13;
    forall k | 0 <= k < |t|
      ensures table(t[k]) == out[k] != 0
    {
      if k == 0 { TransliterationReadsJ(); }
      else if k == 1 { TransliterationReadsK(); }
      else if k == 2 { TransliterationReadsL(); }
      else if k == 3 { TransliterationReadsSemicolon(); }
      else if k == 4 { TransliterationReadsApostrophe(); }
      else { TransliterationReadsBackslash(); }
    }
    TranslateOneForOne(t, out, table);
    DecodePlainThen(t, TRANSLITERATION_FROM_14, table);
  }

  lemma UnicodePiece13()
    ensures DecodeRun(UNICODE_FROM_13, ImportTable(Unicode), NoYod) ==
      Prepend(READ_13, DecodeRun(UNICODE_FROM_14, ImportTable(Unicode), NoYod))
  {
    var t, table, out := UNICODE_13, ImportTable(Unicode), READ_13;
    forall k | 0 <= k < |t|
      ensures table(t[k]) == out[k] != 0
    {
      if k == 0 { UnicodeReadsJ(); }
      else if k == 1 { UnicodeReadsK(); }
      else if k == 2 { UnicodeReadsL(); }
      else if k == 3 { UnicodeReadsSemicolon(); }
      else if k == 4 { UnicodeReadsApostrophe(); }
      else { UnicodeReadsBackslash(); }
    }
    TranslateOneForOne(t, out, table);
    DecodePlainThen(t, UNICODE_FROM_14, table);
  }

  lemma TransliterationPiece14()
    ensures DecodeRun(TRANSLITERATION_FROM_14, ImportTable(Transliteration), NoYod) ==
      Prepend(READ_14, DecodeRun(TRANSLITERATION_FROM_15, ImportTable(Transliteration), NoYod))
  {
    var t, table, out := TRANSLITERATION_14, ImportTable(Transliteration), READ_14;
    forall k | 0 <= k < |t|
      ensures table(t[k]) == out[k] != 0
    {
      if k == 0 { TransliterationReadsBackslash(); }
      else if k == 1 { TransliterationReadsZ(); }
      else if k == 2 { TransliterationReadsX(); }
      else if k == 3 { TransliterationReadsC(); }
      else if k == 4 { TransliterationReadsV(); }
      else { TransliterationReadsB(); }
    }
    TranslateOneForOne(t, out, table);
    DecodePlainThen(t, TRANSLITERATION_FROM_15, table);
  }

  lemma UnicodePiece14()
    ensures DecodeRun(UNICODE_FROM_14, ImportTable(Unicode), NoYod) ==
      Prepend(READ_14, DecodeRun(UNICODE_FROM_15, ImportTable(Unicode), NoYod))
  {
    var t, table, out := UNICODE_14, ImportTable(Unicode), READ_14;
    forall k | 0 <= k < |t|
      ensures table(t[k]) == out[k] != 0
    {
      if k == 0 { UnicodeReadsBackslash(); }
      else if k == 1 { UnicodeReadsZ(); }
      else if k == 2 { ReadsHWithBreve(); }
      else if k == 3 { UnicodeReadsSWithAcute(); }
      else if k == 4 { UnicodeReadsTWithCurcumflex(); }
      else { ReadsB(); }
    }
    TranslateOneForOne(t, out, table);
    DecodePlainThen(t, UNICODE_FROM_15, table);
  }

  lemma TransliterationPiece15()
    ensures DecodeRun(TRANSLITERATION_FROM_15, ImportTable(Transliteration), NoYod) ==
      Decoded(READ_15)
  {
    var t, table, out := TRANSLITERATION_15, ImportTable(Transliteration), READ_15;
    forall k | 0 <= k < |t|
      ensures table(t[k]) == out[k] != 0
    {
      if k == 0 { TransliterationReadsN(); }
      else if k == 1 { TransliterationReadsM(); }
      else if k == 2 { TransliterationReadsComma(); }
      else if k == 3 { TransliterationReadsDot(); }
      else { TransliterationReadsSlash(); }
    }
    TranslateOneForOne(t, out, table);
    DecodePlain(t, table);
  }

  lemma UnicodePiece15()
    ensures DecodeRun(UNICODE_FROM_15, ImportTable(Unicode), NoYod) ==
      Decoded(READ_15)
  {
    var t, table, out := UNICODE_15, ImportTable(Unicode), READ_15;
    forall k | 0 <= k < |t|
      ensures table(t[k]) == out[k] != 0
    {
      if k == 0 { ReadsN(); }
      else if k == 1 { ReadsM(); }
      else if k == 2 { UnicodeReadsComma(); }
      else if k == 3 { UnicodeReadsDot(); }
      else { UnicodeReadsSlash(); }
    }
    TranslateOneForOne(t, out, table);
    DecodePlain(t, table);
  }

  // Single lookups, one lemma each.
  lemma TransliterationReadsA() ensures Translate(Transliteration, ASC_a) == PSEUDO_SMALL_AIN {}
  lemma TransliterationReadsAmp() ensures Translate(Transliteration, ASC_AMP) == PSEUDO_T {}
  lemma TransliterationReadsApostrophe()
    ensures Translate(Transliteration, ASC_APOSTROPHE) == ASC_APOSTROPHE {}
  lemma TransliterationReadsAsterisk()
    ensures Translate(Transliteration, ASC_ASTERISK) == PSEUDO_T_WITH_LINE {}
  lemma TransliterationReadsAt() ensures Translate(Transliteration, ASC_AT) == PSEUDO_H_WITH_DOT {}
  lemma TransliterationReadsB() ensures Translate(Transliteration, ASC_b) == PSEUDO_b {}
  lemma TransliterationReadsBackslash()
    ensures Translate(Transliteration, ASC_BACKSLASH) == ASC_BACKSLASH {}
  lemma TransliterationReadsC() ensures Translate(Transliteration, ASC_c) == PSEUDO_s {}
  lemma TransliterationReadsCapitalA()
    ensures Translate(Transliteration, ASC_A) == PSEUDO_SMALL_ALEPH {}
  lemma TransliterationReadsCapitalB() ensures Translate(Transliteration, ASC_B) == PSEUDO_B {}
  lemma TransliterationReadsCapitalC() ensures Translate(Transliteration, ASC_C) == PSEUDO_S {}
  lemma TransliterationReadsCapitalD()
    ensures Translate(Transliteration, ASC_D) == PSEUDO_d_WITH_LINE {}
  lemma TransliterationReadsCapitalE() ensures Translate(Transliteration, ASC_E) == PSEUDO_E {}
  lemma TransliterationReadsCapitalF() ensures Translate(Transliteration, ASC_F) == PSEUDO_F {}
  lemma TransliterationReadsCapitalG() ensures Translate(Transliteration, ASC_G) == PSEUDO_G {}
  lemma TransliterationReadsCapitalH()
    ensures Translate(Transliteration, ASC_H) == PSEUDO_h_WITH_DOT {}
  lemma TransliterationReadsCapitalI()
    ensures Translate(Transliteration, ASC_I) == PSEUDO_CAPITAL_YOD {}
  lemma TransliterationReadsCapitalJ()
    ensures Translate(Transliteration, ASC_J) == PSEUDO_CAPITAL_YOD {}
  lemma TransliterationReadsCapitalK() ensures Translate(Transliteration, ASC_K) == PSEUDO_K {}
  lemma TransliterationReadsCapitalL() ensures Translate(Transliteration, ASC_L) == PSEUDO_L {}
  lemma TransliterationReadsCapitalM() ensures Translate(Transliteration, ASC_M) == PSEUDO_M {}
  lemma TransliterationReadsCapitalN() ensures Translate(Transliteration, ASC_N) == PSEUDO_N {}
  lemma TransliterationReadsCapitalO() ensures Translate(Transliteration, ASC_O) == PSEUDO_Q {}
  lemma TransliterationReadsCapitalP() ensures Translate(Transliteration, ASC_P) == PSEUDO_P {}
  lemma TransliterationReadsCapitalQ() ensures Translate(Transliteration, ASC_Q) == PSEUDO_Q {}
  lemma TransliterationReadsCapitalR() ensures Translate(Transliteration, ASC_R) == PSEUDO_R {}
  lemma TransliterationReadsCapitalS()
    ensures Translate(Transliteration, ASC_S) == PSEUDO_s_WITH_CARON {}
  lemma TransliterationReadsCapitalT()
    ensures Translate(Transliteration, ASC_T) == PSEUDO_t_WITH_LINE {}
  lemma TransliterationReadsCapitalU() ensures Translate(Transliteration, ASC_U) == ASC_U {}
  lemma TransliterationReadsCapitalV()
    ensures Translate(Transliteration, ASC_V) == PSEUDO_h_WITH_CURCUMFLEX {}
  lemma TransliterationReadsCapitalW() ensures Translate(Transliteration, ASC_W) == PSEUDO_W {}
  lemma TransliterationReadsCapitalX()
    ensures Translate(Transliteration, ASC_X) == PSEUDO_h_WITH_LINE {}
  lemma TransliterationReadsCapitalY() ensures Translate(Transliteration, ASC_Y) == PSEUDO_Y {}
  lemma TransliterationReadsCapitalZ() ensures Translate(Transliteration, ASC_Z) == PSEUDO_Z {}
  lemma TransliterationReadsCircumflexAccent()
    ensures Translate(Transliteration, ASC_CIRCUMFLEX_ACCENT) == PSEUDO_S_WITH_CARON {}
  lemma TransliterationReadsColon() ensures Translate(Transliteration, ASC_COLON) == PSEUDO_COLON {}
  lemma TransliterationReadsComma() ensures Translate(Transliteration, ASC_COMMA) == ASC_COMMA {}
  lemma TransliterationReadsD() ensures Translate(Transliteration, ASC_d) == PSEUDO_d {}
  lemma TransliterationReadsDollar()
    ensures Translate(Transliteration, ASC_DOLLAR) == PSEUDO_H_WITH_LINE {}
  lemma TransliterationReadsDot() ensures Translate(Transliteration, ASC_DOT) == PSEUDO_DOT {}
  lemma TransliterationReadsE() ensures Translate(Transliteration, ASC_e) == PSEUDO_e {}
  lemma TransliterationReadsExclamationMark()
    ensures Translate(Transliteration, ASC_EXCLAMATION_MARK) == PSEUDO_H {}
  lemma TransliterationReadsF() ensures Translate(Transliteration, ASC_f) == PSEUDO_f {}
  lemma TransliterationReadsG() ensures Translate(Transliteration, ASC_g) == PSEUDO_g {}
  lemma TransliterationReadsGreaterThanSign()
    ensures Translate(Transliteration, ASC_GREATER_THAN_SIGN) == ASC_GREATER_THAN_SIGN {}
  lemma TransliterationReadsH() ensures Translate(Transliteration, ASC_h) == PSEUDO_h {}
  lemma TransliterationReadsI() ensures Translate(Transliteration, ASC_i) == PSEUDO_SMALL_YOD {}
  lemma TransliterationReadsJ() ensures Translate(Transliteration, ASC_j) == PSEUDO_SMALL_YOD {}
  lemma TransliterationReadsK() ensures Translate(Transliteration, ASC_k) == PSEUDO_k {}
  lemma TransliterationReadsL() ensures Translate(Transliteration, ASC_l) == PSEUDO_l {}
  lemma TransliterationReadsLeftCurlyBracket()
    ensures Translate(Transliteration, ASC_LEFT_CURLY_BRACKET) == ASC_LEFT_CURLY_BRACKET {}
  lemma TransliterationReadsLeftParenthesis()
    ensures Translate(Transliteration, ASC_LEFT_PARENTHESIS) == ASC_LEFT_PARENTHESIS {}
  lemma TransliterationReadsLeftSquareBracket()
    ensures Translate(Transliteration, ASC_LEFT_SQUARE_BRACKET) == ASC_LEFT_SQUARE_BRACKET {}
  lemma TransliterationReadsLessThanSign()
    ensures Translate(Transliteration, ASC_LESS_THAN_SIGN) == ASC_LESS_THAN_SIGN {}
  lemma TransliterationReadsLowLine()
    ensures Translate(Transliteration, ASC_LOW_LINE) == PSEUDO_D {}
  lemma TransliterationReadsM() ensures Translate(Transliteration, ASC_m) == PSEUDO_m {}
  lemma TransliterationReadsN() ensures Translate(Transliteration, ASC_n) == PSEUDO_n {}
  lemma TransliterationReadsNumber()
    ensures Translate(Transliteration, ASC_NUMBER) == PSEUDO_H_WITH_BREVE {}
  lemma TransliterationReadsO() ensures Translate(Transliteration, ASC_o) == PSEUDO_q {}
  lemma TransliterationReadsP() ensures Translate(Transliteration, ASC_p) == PSEUDO_p {}
  lemma TransliterationReadsPercent() ensures Translate(Transliteration, ASC_PERCENT) == PSEUDO_S {}
  lemma TransliterationReadsPlus()
    ensures Translate(Transliteration, ASC_PLUS) == PSEUDO_D_WITH_LINE {}
  lemma TransliterationReadsQ() ensures Translate(Transliteration, ASC_q) == PSEUDO_q {}
  lemma TransliterationReadsQuestionMark()
    ensures Translate(Transliteration, ASC_QUESTION_MARK) == ASC_QUESTION_MARK {}
  lemma TransliterationReadsR() ensures Translate(Transliteration, ASC_r) == PSEUDO_r {}
  lemma TransliterationReadsRightCurlyBracket()
    ensures Translate(Transliteration, ASC_RIGHT_CURLY_BRACKET) == ASC_RIGHT_CURLY_BRACKET {}
  lemma TransliterationReadsRightParenthesis()
    ensures Translate(Transliteration, ASC_RIGHT_PARENTHESIS) == ASC_RIGHT_PARENTHESIS {}
  lemma TransliterationReadsRightSquareBracket()
    ensures Translate(Transliteration, ASC_RIGHT_SQUARE_BRACKET) == ASC_RIGHT_SQUARE_BRACKET {}
  lemma TransliterationReadsS() ensures Translate(Transliteration, ASC_s) == PSEUDO_s {}
  lemma TransliterationReadsSemicolon()
    ensures Translate(Transliteration, ASC_SEMICOLON) == ASC_SEMICOLON {}
  lemma TransliterationReadsSlash() ensures Translate(Transliteration, ASC_SLASH) == ASC_SLASH {}
  lemma TransliterationReadsT() ensures Translate(Transliteration, ASC_t) == PSEUDO_t {}
  lemma TransliterationReadsTilde() ensures Translate(Transliteration, ASC_TILDE) == ASC_TILDE {}
  lemma TransliterationReadsU() ensures Translate(Transliteration, ASC_u) == ASC_u {}
  lemma TransliterationReadsV()
    ensures Translate(Transliteration, ASC_v) == PSEUDO_t_WITH_CURCUMFLEX {}
  lemma TransliterationReadsVerticalLine()
    ensures Translate(Transliteration, ASC_VERTICAL_LINE) == ASC_VERTICAL_LINE {}
  lemma TransliterationReadsW() ensures Translate(Transliteration, ASC_w) == PSEUDO_w {}
  lemma TransliterationReadsX() ensures Translate(Transliteration, ASC_x) == PSEUDO_h_WITH_BREVE {}
  lemma TransliterationReadsY() ensures Translate(Transliteration, ASC_y) == PSEUDO_y {}
  lemma TransliterationReadsZ() ensures Translate(Transliteration, ASC_z) == PSEUDO_z {}
  lemma UnicodeReadsApostrophe() ensures Translate(Unicode, ASC_APOSTROPHE) == ASC_APOSTROPHE {}
  lemma UnicodeReadsBackslash() ensures Translate(Unicode, ASC_BACKSLASH) == ASC_BACKSLASH {}
  lemma UnicodeReadsCapitalB() ensures Translate(Unicode, ASC_B) == PSEUDO_B {}
  lemma UnicodeReadsCapitalD() ensures Translate(Unicode, ASC_D) == PSEUDO_D {}
  lemma UnicodeReadsCapitalDWithLine()
    ensures Translate(Unicode, UN_D_WITH_LINE) == PSEUDO_D_WITH_LINE {}
  lemma UnicodeReadsCapitalE() ensures Translate(Unicode, ASC_E) == PSEUDO_E {}
  lemma UnicodeReadsCapitalF() ensures Translate(Unicode, ASC_F) == PSEUDO_F {}
  lemma UnicodeReadsCapitalG() ensures Translate(Unicode, ASC_G) == PSEUDO_G {}
  lemma UnicodeReadsCapitalHWithDot()
    ensures Translate(Unicode, UN_H_WITH_DOT) == PSEUDO_H_WITH_DOT {}
  lemma UnicodeReadsCapitalJ() ensures Translate(Unicode, ASC_J) == PSEUDO_CAPITAL_YOD {}
  lemma UnicodeReadsCapitalK() ensures Translate(Unicode, ASC_K) == PSEUDO_K {}
  lemma UnicodeReadsCapitalKWithDot() ensures Translate(Unicode, UN_K_WITH_DOT) == PSEUDO_Q {}
  lemma UnicodeReadsCapitalL() ensures Translate(Unicode, ASC_L) == PSEUDO_L {}
  lemma UnicodeReadsCapitalM() ensures Translate(Unicode, ASC_M) == PSEUDO_M {}
  lemma UnicodeReadsCapitalN() ensures Translate(Unicode, ASC_N) == PSEUDO_N {}
  lemma UnicodeReadsCapitalP() ensures Translate(Unicode, ASC_P) == PSEUDO_P {}
  lemma UnicodeReadsCapitalR() ensures Translate(Unicode, ASC_R) == PSEUDO_R {}
  lemma UnicodeReadsCapitalS() ensures Translate(Unicode, ASC_S) == PSEUDO_S {}
  lemma UnicodeReadsCapitalSWithAcute() ensures Translate(Unicode, UN_S_WITH_ACUTE) == PSEUDO_S {}
  lemma UnicodeReadsCapitalSWithCaron()
    ensures Translate(Unicode, UN_S_WITH_CARON) == PSEUDO_S_WITH_CARON {}
  lemma UnicodeReadsCapitalT() ensures Translate(Unicode, ASC_T) == PSEUDO_T {}
  lemma UnicodeReadsCapitalTWithLine()
    ensures Translate(Unicode, UN_T_WITH_LINE) == PSEUDO_T_WITH_LINE {}
  lemma UnicodeReadsCapitalU() ensures Translate(Unicode, ASC_U) == ASC_U {}
  lemma UnicodeReadsCapitalW() ensures Translate(Unicode, ASC_W) == PSEUDO_W {}
  lemma UnicodeReadsCapitalZ() ensures Translate(Unicode, ASC_Z) == PSEUDO_Z {}
  lemma UnicodeReadsColon() ensures Translate(Unicode, ASC_COLON) == PSEUDO_COLON {}
  lemma UnicodeReadsComma() ensures Translate(Unicode, ASC_COMMA) == ASC_COMMA {}
  lemma UnicodeReadsD() ensures Translate(Unicode, ASC_d) == PSEUDO_d {}
  lemma UnicodeReadsDWithLine() ensures Translate(Unicode, UN_d_WITH_LINE) == PSEUDO_d_WITH_LINE {}
  lemma UnicodeReadsDot() ensures Translate(Unicode, ASC_DOT) == PSEUDO_DOT {}
  lemma UnicodeReadsE() ensures Translate(Unicode, ASC_e) == PSEUDO_e {}
  lemma UnicodeReadsEmojiBoy() ensures Translate(Unicode, EMOJI_BOY) == EMOJI_BOY {}
  lemma UnicodeReadsEmojiMan() ensures Translate(Unicode, EMOJI_MAN) == EMOJI_MAN {}
  lemma UnicodeReadsEmojiWoman() ensures Translate(Unicode, EMOJI_WOMAN) == EMOJI_WOMAN {}
  lemma UnicodeReadsF() ensures Translate(Unicode, ASC_f) == PSEUDO_f {}
  lemma UnicodeReadsG() ensures Translate(Unicode, ASC_g) == PSEUDO_g {}
  lemma UnicodeReadsGreaterThanSign()
    ensures Translate(Unicode, ASC_GREATER_THAN_SIGN) == ASC_GREATER_THAN_SIGN {}
  lemma UnicodeReadsHWithDot() ensures Translate(Unicode, UN_h_WITH_DOT) == PSEUDO_h_WITH_DOT {}
  lemma UnicodeReadsHieroglyphSky() ensures Translate(Unicode, HIEROGLYPH_SKY) == HIEROGLYPH_SKY {}
  lemma UnicodeReadsJ() ensures Translate(Unicode, ASC_j) == PSEUDO_SMALL_YOD {}
  lemma UnicodeReadsK() ensures Translate(Unicode, ASC_k) == PSEUDO_k {}
  lemma UnicodeReadsKWithDot() ensures Translate(Unicode, UN_k_WITH_DOT) == PSEUDO_q {}
  lemma UnicodeReadsL() ensures Translate(Unicode, ASC_l) == PSEUDO_l {}
  lemma UnicodeReadsLeftCurlyBracket()
    ensures Translate(Unicode, ASC_LEFT_CURLY_BRACKET) == ASC_LEFT_CURLY_BRACKET {}
  lemma UnicodeReadsLeftParenthesis()
    ensures Translate(Unicode, ASC_LEFT_PARENTHESIS) == ASC_LEFT_PARENTHESIS {}
  lemma UnicodeReadsLeftSquareBracket()
    ensures Translate(Unicode, ASC_LEFT_SQUARE_BRACKET) == ASC_LEFT_SQUARE_BRACKET {}
  lemma UnicodeReadsLessThanSign()
    ensures Translate(Unicode, ASC_LESS_THAN_SIGN) == ASC_LESS_THAN_SIGN {}
  lemma UnicodeReadsP() ensures Translate(Unicode, ASC_p) == PSEUDO_p {}
  lemma UnicodeReadsQuestionMark()
    ensures Translate(Unicode, ASC_QUESTION_MARK) == ASC_QUESTION_MARK {}
  lemma UnicodeReadsR() ensures Translate(Unicode, ASC_r) == PSEUDO_r {}
  lemma UnicodeReadsRightCurlyBracket()
    ensures Translate(Unicode, ASC_RIGHT_CURLY_BRACKET) == ASC_RIGHT_CURLY_BRACKET {}
  lemma UnicodeReadsRightParenthesis()
    ensures Translate(Unicode, ASC_RIGHT_PARENTHESIS) == ASC_RIGHT_PARENTHESIS {}
  lemma UnicodeReadsRightSquareBracket()
    ensures Translate(Unicode, ASC_RIGHT_SQUARE_BRACKET) == ASC_RIGHT_SQUARE_BRACKET {}
  lemma UnicodeReadsS() ensures Translate(Unicode, ASC_s) == PSEUDO_s {}
  lemma UnicodeReadsSWithAcute() ensures Translate(Unicode, UN_s_WITH_ACUTE) == PSEUDO_s {}
  lemma UnicodeReadsSWithCaron()
    ensures Translate(Unicode, UN_s_WITH_CARON) == PSEUDO_s_WITH_CARON {}
  lemma UnicodeReadsSemicolon() ensures Translate(Unicode, ASC_SEMICOLON) == ASC_SEMICOLON {}
  lemma UnicodeReadsSlash() ensures Translate(Unicode, ASC_SLASH) == ASC_SLASH {}
  lemma UnicodeReadsTWithCurcumflex()
    ensures Translate(Unicode, UN_t_WITH_CURCUMFLEX) == PSEUDO_t_WITH_CURCUMFLEX {}
  lemma UnicodeReadsTWithLine() ensures Translate(Unicode, UN_t_WITH_LINE) == PSEUDO_t_WITH_LINE {}
  lemma UnicodeReadsTilde() ensures Translate(Unicode, ASC_TILDE) == ASC_TILDE {}
  lemma UnicodeReadsU() ensures Translate(Unicode, ASC_u) == ASC_u {}
  lemma UnicodeReadsVerticalLine()
    ensures Translate(Unicode, ASC_VERTICAL_LINE) == ASC_VERTICAL_LINE {}
  lemma UnicodeReadsW() ensures Translate(Unicode, ASC_w) == PSEUDO_w {}
  lemma UnicodeReadsY() ensures Translate(Unicode, ASC_y) == PSEUDO_y {}
  lemma UnicodeReadsZ() ensures Translate(Unicode, ASC_z) == PSEUDO_z {}
  lemma UnicodeReadsZeroWidthJoiner()
    ensures Translate(Unicode, ZERO_WIDTH_JOINER) == ZERO_WIDTH_JOINER {}

  /** "~!@#$%^&*()_+QWERTYUIOP{}..." read as Transliteration and its Unicode
      spelling "~HḤḪH̱SŠTṮ()DḎḲ..." read as Unicode give the same units. */
  lemma TransliterationVector()
    ensures FromTransliteration(TRANSLITERATION_TEXT) == FromUnicode(UNICODE_TEXT)
    ensures FromTransliteration(TRANSLITERATION_TEXT) == Decoded(READ_TEXT)
  {
    TransliterationPiece0();
    TransliterationPiece1();
    TransliterationPiece2();
    TransliterationPiece3();
    TransliterationPiece4();
    TransliterationPiece5();
    TransliterationPiece6();
    TransliterationPiece7();
    TransliterationPiece8();
    TransliterationPiece9();
    TransliterationPiece10();
    TransliterationPiece11();
    TransliterationPiece12();
    TransliterationPiece13();
    TransliterationPiece14();
    TransliterationPiece15();
    UnicodePiece0();
    UnicodePiece1();
    UnicodePiece2();
    UnicodePiece3();
    UnicodePiece4();
    UnicodePiece5();
    UnicodePiece6();
    UnicodePiece7();
    UnicodePiece8();
    UnicodePiece9();
    UnicodePiece10();
    UnicodePiece11();
    UnicodePiece12();
    UnicodePiece13();
    UnicodePiece14();
    UnicodePiece15();
  }

  // "gGtTp" read from Unicode: g, G, t, T and p are common entries, read the
  // same way by every format.
  const COMMON_TEXT: seq<int> := [ASC_g, ASC_G, ASC_t, ASC_T, ASC_p]
  const COMMON_READ: seq<int> := [PSEUDO_g, PSEUDO_G, PSEUDO_t, PSEUDO_T, PSEUDO_p]

  lemma CommonRead()
    ensures DecodeRun(COMMON_TEXT, ImportTable(Unicode), NoYod) ==
      Decoded(COMMON_READ)
  {
    var t, table, out := COMMON_TEXT, ImportTable(Unicode), COMMON_READ;
    forall k | 0 <= k < |t|
      ensures table(t[k]) == out[k] != 0
    {
      if k == 0 { UnicodeReadsG(); }
      else if k == 1 { UnicodeReadsCapitalG(); }
      else if k == 2 { ReadsT(); }
      else if k == 3 { UnicodeReadsCapitalT(); }
      else { UnicodeReadsP(); }
    }
    TranslateOneForOne(t, out, table);
    DecodePlain(t, table);
  }

  lemma CommonCharsVector()
    ensures FromUnicode(COMMON_TEXT) == Decoded([0xF139, 0xF138, 0xF13B, 0xF13A, 0xF119])
  {
    CommonRead();
  }

  // "nṯr ꜥꜣ nb pt 𓇯👨‍👩‍👦": transliteration, the hieroglyph for "sky", and the emoji
  // sequence man, joiner, woman, joiner, boy.
  const HIEROGLYPH_SKY: int := 0x131EF
  const EMOJI_MAN: int := 0x1F468
  const EMOJI_WOMAN: int := 0x1F469
  const EMOJI_BOY: int := 0x1F466
  const ZERO_WIDTH_JOINER: int := 0x200D

  const MIXED_0: seq<int> :=
    [ASC_n, UN_t_WITH_LINE, ASC_r, ASC_SPACE, UN_SMALL_AIN, UN_SMALL_ALEPH, ASC_SPACE]
  const MIXED_READ_0: seq<int> :=
    [PSEUDO_n, PSEUDO_t_WITH_LINE, PSEUDO_r, ASC_SPACE, PSEUDO_SMALL_AIN, PSEUDO_SMALL_ALEPH,
     ASC_SPACE]
  const MIXED_1: seq<int> := [ASC_n, ASC_b, ASC_SPACE, ASC_p, ASC_t, ASC_SPACE]
  const MIXED_READ_1: seq<int> := [PSEUDO_n, PSEUDO_b, ASC_SPACE, PSEUDO_p, PSEUDO_t, ASC_SPACE]
  const MIXED_2: seq<int> :=
    [HIEROGLYPH_SKY, EMOJI_MAN, ZERO_WIDTH_JOINER, EMOJI_WOMAN, ZERO_WIDTH_JOINER, EMOJI_BOY]
  const MIXED_READ_2: seq<int> :=
    [HIEROGLYPH_SKY, EMOJI_MAN, ZERO_WIDTH_JOINER, EMOJI_WOMAN, ZERO_WIDTH_JOINER, EMOJI_BOY]
  const MIXED_FROM_1: seq<int> := MIXED_1 + MIXED_2
  const MIXED_TEXT: seq<int> := MIXED_0 + MIXED_FROM_1
  const MIXED_READ: seq<int> := MIXED_READ_0 + (MIXED_READ_1 + MIXED_READ_2)

  lemma MixedPiece0()
    ensures DecodeRun(MIXED_TEXT, ImportTable(Unicode), NoYod) ==
      Prepend(MIXED_READ_0, DecodeRun(MIXED_FROM_1, ImportTable(Unicode), NoYod))
  {
    var t, table, out := MIXED_0, ImportTable(Unicode), MIXED_READ_0;
    forall k | 0 <= k < |t|
      ensures table(t[k]) == out[k] != 0
    {
      if k == 0 { ReadsN(); }
      else if k == 1 { UnicodeReadsTWithLine(); }
      else if k == 2 { UnicodeReadsR(); }
      else if k == 3 { ReadsSpace(); }
      else if k == 4 { ReadsSmallAin(); }
      else if k == 5 { ReadsSmallAleph(); }
      else { ReadsSpace(); }
    }
    TranslateOneForOne(t, out, table);
    DecodePlainThen(t, MIXED_FROM_1, table);
  }

  lemma MixedPiece1()
    ensures DecodeRun(MIXED_FROM_1, ImportTable(Unicode), NoYod) ==
      Prepend(MIXED_READ_1, DecodeRun(MIXED_2, ImportTable(Unicode), NoYod))
  {
    var t, table, out := MIXED_1, ImportTable(Unicode), MIXED_READ_1;
    forall k | 0 <= k < |t|
      ensures table(t[k]) == out[k] != 0
    {
      if k == 0 { ReadsN(); }
      else if k == 1 { ReadsB(); }
      else if k == 2 { ReadsSpace(); }
      else if k == 3 { UnicodeReadsP(); }
      else if k == 4 { ReadsT(); }
      else { ReadsSpace(); }
    }
    TranslateOneForOne(t, out, table);
    DecodePlainThen(t, MIXED_2, table);
  }

  lemma MixedPiece2()
    ensures DecodeRun(MIXED_2, ImportTable(Unicode), NoYod) ==
      Decoded(MIXED_READ_2)
  {
    var t, table, out := MIXED_2, ImportTable(Unicode), MIXED_READ_2;
    forall k | 0 <= k < |t|
      ensures table(t[k]) == out[k] != 0
    {
      if k == 0 { UnicodeReadsHieroglyphSky(); }
      else if k == 1 { UnicodeReadsEmojiMan(); }
      else if k == 2 { UnicodeReadsZeroWidthJoiner(); }
      else if k == 3 { UnicodeReadsEmojiWoman(); }
      else if k == 4 { UnicodeReadsZeroWidthJoiner(); }
      else { UnicodeReadsEmojiBoy(); }
    }
    TranslateOneForOne(t, out, table);
    DecodePlain(t, table);
  }

  lemma MixedSpelling0(f: ExportFlags)
    ensures ExportRun(MIXED_READ_0, Speller(f)) == Text(MIXED_0)
  {
    var t, spell, out := MIXED_READ_0, Speller(f), MIXED_0;
    forall k | 0 <= k < |t|
      ensures spell(t[k]) == Some([out[k]])
    {
      if k == 0 { SpellsN(f); }
      else if k == 1 { SpellsTWithLine(f); }
      else if k == 2 { SpellsR(f); }
      else if k == 3 { SpellsSpace(f); }
      else if k == 4 { SpellsSmallAin(f); }
      else if k == 5 { SpellsSmallAleph(f); }
      else { SpellsSpace(f); }
    }
    ExportOneForOne(t, out, spell);
  }

  lemma MixedSpelling1(f: ExportFlags)
    ensures ExportRun(MIXED_READ_1, Speller(f)) == Text(MIXED_1)
  {
    var t, spell, out := MIXED_READ_1, Speller(f), MIXED_1;
    forall k | 0 <= k < |t|
      ensures spell(t[k]) == Some([out[k]])
    {
      if k == 0 { SpellsN(f); }
      else if k == 1 { SpellsB(f); }
      else if k == 2 { SpellsSpace(f); }
      else if k == 3 { SpellsP(f); }
      else if k == 4 { SpellsT(f); }
      else { SpellsSpace(f); }
    }
    ExportOneForOne(t, out, spell);
  }

  lemma MixedSpelling2(f: ExportFlags)
    ensures ExportRun(MIXED_READ_2, Speller(f)) == Text(MIXED_2)
  {
    var t, spell, out := MIXED_READ_2, Speller(f), MIXED_2;
    forall k | 0 <= k < |t|
      ensures spell(t[k]) == Some([out[k]])
    {
      if k == 0 { SpellsHieroglyphSky(f); }
      else if k == 1 { SpellsEmojiMan(f); }
      else if k == 2 { SpellsZeroWidthJoiner(f); }
      else if k == 3 { SpellsEmojiWoman(f); }
      else if k == 4 { SpellsZeroWidthJoiner(f); }
      else { SpellsEmojiBoy(f); }
    }
    ExportOneForOne(t, out, spell);
  }

  lemma SpellsEmojiBoy(f: ExportFlags) ensures ExportUnit(f, EMOJI_BOY) == Some([EMOJI_BOY]) {}
  lemma SpellsEmojiMan(f: ExportFlags) ensures ExportUnit(f, EMOJI_MAN) == Some([EMOJI_MAN]) {}
  lemma SpellsEmojiWoman(f: ExportFlags)
    ensures ExportUnit(f, EMOJI_WOMAN) == Some([EMOJI_WOMAN]) {}
  lemma SpellsHieroglyphSky(f: ExportFlags)
    ensures ExportUnit(f, HIEROGLYPH_SKY) == Some([HIEROGLYPH_SKY]) {}
  lemma SpellsP(f: ExportFlags) ensures ExportUnit(f, PSEUDO_p) == Some([ASC_p]) {}
  lemma SpellsR(f: ExportFlags) ensures ExportUnit(f, PSEUDO_r) == Some([ASC_r]) {}
  lemma SpellsSmallAin(f: ExportFlags)
    ensures ExportUnit(f, PSEUDO_SMALL_AIN) == Some([UN_SMALL_AIN]) {}
  lemma SpellsSmallAleph(f: ExportFlags)
    ensures ExportUnit(f, PSEUDO_SMALL_ALEPH) == Some([UN_SMALL_ALEPH]) {}
  lemma SpellsTWithLine(f: ExportFlags)
    ensures ExportUnit(f, PSEUDO_t_WITH_LINE) == Some([UN_t_WITH_LINE]) {}
  lemma SpellsZeroWidthJoiner(f: ExportFlags)
    ensures ExportUnit(f, ZERO_WIDTH_JOINER) == Some([ZERO_WIDTH_JOINER]) {}

  /** The mixed text reads through the Unicode tables, and `to_unicode` without
      flags gives it back unchanged. */
  lemma HieroglyphsVector()
    ensures FromUnicode(MIXED_TEXT) == Decoded(MIXED_READ)
    ensures ToUnicodeOf(FromUnicode(MIXED_TEXT).units, ExportFlagsOf(0)) == Text(MIXED_TEXT)
  {
    MixedPiece0();
    MixedPiece1();
    MixedPiece2();
    var f := ExportFlags(false, false, false, false);
    NoExportFlags();
    MixedSpelling0(f);
    MixedSpelling1(f);
    MixedSpelling2(f);
    ExportRunAppend(MIXED_READ_1, MIXED_READ_2, Speller(f));
    ExportRunAppend(MIXED_READ_0, MIXED_READ_1 + MIXED_READ_2, Speller(f));
  }
}
