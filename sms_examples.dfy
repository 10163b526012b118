/** The standard MTN confirmation SMS of the parser's tests, read end to end.

    The text is written as a concatenation of short pieces so that each
    character the scanners inspect can be named by its index. */
module SmsExamples {
  import opened Wrappers
  import opened Text
  import opened Calendar
  import opened SmsParser

  const Lead: string := "You have "
  const AmountPart: string := "sent" + " " + "GHS" + " " + "20" + "." + "00" + " "
  const NamePart: string := "to" + " " + "Ama Owusu" + " " + "(" + "0244123456" + ")" + ".\n"
  const IdPart: string := "Transaction" + " " + "ID" + ": " + "8675309ABC" + "\n"
  const DatePart: string := "Date" + ": " + "22" + "/" + "02" + "/" + "2025" + " " + "10" + ":" + "34" + " " + "AM" + "\n"

  /** "You have sent GHS 20.00 to Ama Owusu (0244123456).\nTransaction ID:
      8675309ABC\nDate: 22/02/2025 10:34 AM\nYour new balance is GHS 130.00" */
  const Standard: string := Lead + AmountPart + NamePart + IdPart + DatePart + "Your new balance is GHS 130.00"

  /** Where each part of the text lies. */
  lemma NamePartAt(k: nat)
    requires k < |NamePart|
    ensures |Lead + AmountPart| == 24 && Standard[24 + k] == NamePart[k]
  {
    var head := Lead + AmountPart;
    assert (head + NamePart)[24 + k] == NamePart[k];
  }

  lemma IdPartAt(k: nat)
    requires k < |IdPart|
    ensures Standard[51 + k] == IdPart[k]
  {
    var head := Lead + AmountPart + NamePart;
    assert |head| == 51;
    assert (head + IdPart)[51 + k] == IdPart[k];
  }

  lemma DatePartAt(k: nat)
    requires k < |DatePart|
    ensures Standard[78 + k] == DatePart[k]
  {
    var head := Lead + AmountPart + NamePart + IdPart;
    assert |head| == 78;
    assert (head + DatePart)[78 + k] == DatePart[k];
  }

  lemma AmountPartAt(k: nat)
    requires k < |AmountPart|
    ensures Standard[9 + k] == AmountPart[k]
  {
    assert (Lead + AmountPart)[9 + k] == AmountPart[k];
  }

  /** The characters the scanners read, six at a time. */
  lemma Chars9To14()
    ensures Standard[9] == 's' && Standard[10] == 'e' && Standard[11] == 'n'
    ensures Standard[12] == 't' && Standard[13] == ' ' && Standard[14] == 'G'
  {
  }

  lemma Chars15To20()
    ensures Standard[15] == 'H' && Standard[16] == 'S' && Standard[17] == ' '
    ensures Standard[18] == '2' && Standard[19] == '0' && Standard[20] == '.'
  {
  }

  lemma Chars21To26()
    ensures Standard[21] == '0' && Standard[22] == '0' && Standard[23] == ' '
    ensures Standard[24] == 't' && Standard[25] == 'o' && Standard[26] == ' '
  {
  }

  lemma Chars27To32()
    ensures Standard[27] == 'A' && Standard[28] == 'm' && Standard[29] == 'a'
    ensures Standard[30] == ' ' && Standard[31] == 'O' && Standard[32] == 'w'
  {
  }

  lemma Chars33To38()
    ensures Standard[33] == 'u' && Standard[34] == 's' && Standard[35] == 'u'
    ensures Standard[36] == ' ' && Standard[37] == '(' && Standard[38] == '0'
  {
  }

  lemma Chars39To44()
    ensures Standard[39] == '2' && Standard[40] == '4' && Standard[41] == '4'
    ensures Standard[42] == '1' && Standard[43] == '2' && Standard[44] == '3'
  {
  }

  lemma Chars45To50()
    ensures Standard[45] == '4' && Standard[46] == '5' && Standard[47] == '6'
    ensures Standard[48] == ')' && Standard[49] == '.' && Standard[50] == '\n'
  {
  }

  lemma Chars51To56()
    ensures Standard[51] == 'T' && Standard[52] == 'r' && Standard[53] == 'a'
    ensures Standard[54] == 'n' && Standard[55] == 's' && Standard[56] == 'a'
  {
  }

  lemma Chars57To62()
    ensures Standard[57] == 'c' && Standard[58] == 't' && Standard[59] == 'i'
    ensures Standard[60] == 'o' && Standard[61] == 'n' && Standard[62] == ' '
  {
  }

  lemma Chars63To68()
    ensures Standard[63] == 'I' && Standard[64] == 'D' && Standard[65] == ':'
    ensures Standard[66] == ' ' && Standard[67] == '8' && Standard[68] == '6'
  {
  }

  lemma Chars69To74()
    ensures Standard[69] == '7' && Standard[70] == '5' && Standard[71] == '3'
    ensures Standard[72] == '0' && Standard[73] == '9' && Standard[74] == 'A'
  {
  }

  lemma Chars75To80()
    ensures Standard[75] == 'B' && Standard[76] == 'C' && Standard[77] == '\n'
    ensures Standard[78] == 'D' && Standard[79] == 'a' && Standard[80] == 't'
  {
  }

  lemma Chars81To86()
    ensures Standard[81] == 'e' && Standard[82] == ':' && Standard[83] == ' '
    ensures Standard[84] == '2' && Standard[85] == '2' && Standard[86] == '/'
  {
  }

  lemma Chars87To92()
    ensures Standard[87] == '0' && Standard[88] == '2' && Standard[89] == '/'
    ensures Standard[90] == '2' && Standard[91] == '0' && Standard[92] == '2'
  {
  }

  lemma Chars93To98()
    ensures Standard[93] == '5' && Standard[94] == ' ' && Standard[95] == '1'
    ensures Standard[96] == '0' && Standard[97] == ':' && Standard[98] == '3'
  {
  }

  lemma Chars99To104()
    ensures Standard[99] == '4' && Standard[100] == ' ' && Standard[101] == 'A'
    ensures Standard[102] == 'M' && Standard[103] == '\n' && Standard[104] == 'Y'
  {
  }

  /** A character that is not in `s` is at no index of `s`. */
  lemma NotAt(s: string, m: nat, c: char)
    requires m < |s| && c !in s
    ensures s[m] != c
  {
    assert s[m] in s;
  }

  /** Nothing before index 9 starts "sent". */
  lemma NoSentBefore(m: nat)
    requires m < 9
    ensures !MatchesWordAt(Standard, m, "sent")
  {
    assert Standard[m] == Lead[m];
    NotAt(Lead, m, 's');
    NotAt(Lead, m, 'S');
    assert LowerChar(Standard[m + 0]) != "sent"[0];
  }

  lemma SentAt()
    ensures AfterWordAndSpaces(Standard, 9, "sent") == Some(14)
    ensures MatchesWordAt(Standard, 14, "ghs")
  {
    Chars9To14();
    SentWord();
    GhsWord();
    assert !IsSpace(Standard[14]);
  }

  lemma SentWord()
    ensures MatchesWordAt(Standard, 9, "sent")
  {
    forall k | 0 <= k < 4 ensures LowerChar(Standard[9 + k]) == "sent"[k] {
      AmountPartAt(k);
      if k == 0 {} else if k == 1 {} else if k == 2 {} else {}
    }
  }

  lemma GhsWord()
    ensures MatchesWordAt(Standard, 14, "ghs")
  {
    forall k | 0 <= k < 3 ensures LowerChar(Standard[14 + k]) == "ghs"[k] {
      AmountPartAt(5 + k);
      if k == 0 {} else if k == 1 {} else {}
    }
  }

  lemma AmountAtNine()
    ensures AmountAt(Standard, 9) == Some(AmountText("20", Some("00")))
  {
    Chars15To20();
    Chars21To26();
    SentAt();
    assert RunEnd(Standard, 18, IsAmountChar) == 20;
    assert RunEnd(Standard, 21, IsDigit) == 23;
    assert Standard[18..20] == "20";
    assert Standard[21..23] == "00";
  }

  /** The amount is the leftmost match, 20.00 cedis. */
  lemma StandardAmount()
    ensures Search(Standard, 0, AmountAt) == Some(AmountText("20", Some("00")))
    ensures AmountValue(AmountText("20", Some("00"))) == Some(2000)
  {
    AmountAtNine();
    forall m | 0 <= m < 9 ensures AmountAt(Standard, m).None? {
      NoSentBefore(m);
    }
    SearchIsLeftmost(Standard, 0, AmountAt, 9);
    TwentyCedis();
  }

  lemma TwentyCedis()
    ensures AmountValue(AmountText("20", Some("00"))) == Some(2000)
  {
    assert Filter("20", IsDigit) == "20";
    assert "20"[..1] == "2" && "00"[..1] == "0";
  }

  lemma GapToAt()
    ensures RunEnd(Standard, 17, IsGapChar) == 24
    ensures MatchesWordAt(Standard, 24, "to")
  {
    Chars15To20();
    Chars21To26();
    assert RunEnd(Standard, 23, IsGapChar) == 24;
    assert RunEnd(Standard, 21, IsGapChar) == 24;
    assert RunEnd(Standard, 19, IsGapChar) == 24;
    forall k | 0 <= k < 2 ensures LowerChar(Standard[24 + k]) == "to"[k] {
      if k == 0 {} else {}
    }
  }

  lemma NameRunEnd()
    ensures RunEnd(Standard, 26, IsNameChar) == 37
  {
    Chars21To26();
    Chars27To32();
    Chars33To38();
    assert RunEnd(Standard, 33, IsNameChar) == 37;
    assert RunEnd(Standard, 30, IsNameChar) == 37;
    assert RunEnd(Standard, 27, IsNameChar) == 37;
  }

  lemma NameSlice()
    ensures Standard[26..37] == " " + "Ama Owusu" + " "
  {
    forall k | 0 <= k < 11 ensures Standard[26..37][k] == (" " + "Ama Owusu" + " ")[k] {
      NamePartAt(2 + k);
      assert Standard[26..37][k] == Standard[26 + k];
    }
  }

  lemma StripAma()
    ensures Strip(" " + "Ama Owusu" + " ") == "Ama Owusu"
  {
    var s := " " + "Ama Owusu" + " ";
    assert s[1..] == "Ama Owusu" + " ";
    assert StripStart(s, IsSpace) == "Ama Owusu" + " ";
    var r := "Ama Owusu" + " ";
    assert r[..|r| - 1] == "Ama Owusu";
    assert StripEnd("Ama Owusu", IsSpace) == "Ama Owusu";
    assert StripEnd(r, IsSpace) == "Ama Owusu";
  }

  lemma NameAtNine()
    ensures NameAt(Standard, 9) == Some("Ama Owusu")
  {
    SentAt();
    GapToAt();
    NameAfterToAt();
  }

  lemma NameAfterToAt()
    ensures NameAfterTo(Standard, 26) == Some("Ama Owusu")
  {
    NameRunEnd();
    NameSlice();
    StripAma();
  }

  /** The recipient is "Ama Owusu". */
  lemma StandardName()
    ensures Search(Standard, 0, NameAt) == Some("Ama Owusu")
  {
    NameAtNine();
    forall m | 0 <= m < 9 ensures NameAt(Standard, m).None? {
      NoSentBefore(m);
    }
    SearchIsLeftmost(Standard, 0, NameAt, 9);
  }

  /** Nothing before index 24 starts "to". */
  lemma NoToBefore(m: nat)
    requires m < 24
    ensures !MatchesWordAt(Standard, m, "to")
  {
    if m == 12 {
    } else {
      NoTInAmount(m);
    }
    NotWordAt(Standard, m, "to");
  }

  /** The only 't' before index 24 is the one of "sent", at 12. */
  lemma NoTInAmount(m: nat)
    requires m < 24 && m != 12
    ensures Standard[m] != 't' && Standard[m] != 'T'
  {
    if m < 9 {
      assert Standard[m] == Lead[m];
      NotAt(Lead, m, 't');
      NotAt(Lead, m, 'T');
    } else {
      assert Standard[m] == AmountPart[m - 9];
      if m < 12 {
        NotAt(AmountPart[..3], m - 9, 't');
        NotAt(AmountPart[..3], m - 9, 'T');
      } else {
        NotAt(AmountPart[4..], m - 13, 't');
        NotAt(AmountPart[4..], m - 13, 'T');
      }
    }
  }

  lemma PhoneRunEnd()
    ensures RunEnd(Standard, 26, NotOpenParen) == 37
  {
    Chars21To26();
    Chars27To32();
    Chars33To38();
    assert RunEnd(Standard, 33, NotOpenParen) == 37;
    assert RunEnd(Standard, 30, NotOpenParen) == 37;
    assert RunEnd(Standard, 27, NotOpenParen) == 37;
  }

  lemma PhoneSlice()
    ensures Standard[38..48] == "0244123456"
    ensures Standard[37] == '(' && Standard[48] == ')'
  {
    Chars33To38();
    Chars45To50();
    forall k | 0 <= k < 10 ensures Standard[38..48][k] == "0244123456"[k] {
      NamePartAt(14 + k);
      assert Standard[38..48][k] == Standard[38 + k];
    }
  }

  lemma PhoneAtTwentyFour()
    ensures PhoneAt(Standard, 24) == Some("0244123456")
  {
    GapToAt();
    PhoneRunEnd();
    PhoneSlice();
    assert Standard[39..48] == "0244123456"[1..];
  }

  /** The recipient's phone is 0244123456. */
  lemma StandardPhone()
    ensures Search(Standard, 0, PhoneAt) == Some("0244123456")
  {
    PhoneAtTwentyFour();
    forall m | 0 <= m < 24 ensures PhoneAt(Standard, m).None? {
      NoToBefore(m);
    }
    SearchIsLeftmost(Standard, 0, PhoneAt, 24);
  }

  /** A word does not match where its first or second letter is missing. */
  lemma NotWordAt(t: string, m: nat, w: string)
    requires 2 <= |w| && m + 1 < |t|
    requires LowerChar(t[m]) != w[0] || LowerChar(t[m + 1]) != w[1]
    ensures !MatchesWordAt(t, m, w)
  {
  }

  /** The text's letters 't' before index 51 are at 12 and 24. */
  lemma NoTBefore(m: nat)
    requires m < 51 && m != 12 && m != 24
    ensures Standard[m] != 't' && Standard[m] != 'T'
  {
    if m < 24 {
      NoTInAmount(m);
    } else {
      NamePartAt(m - 24);
      NotAt(NamePart[1..], m - 25, 't');
      NotAt(NamePart[1..], m - 25, 'T');
    }
  }

  /** Nothing before index 51 starts "transaction". */
  lemma NoTransactionBefore(m: nat)
    requires m < 51
    ensures !MatchesWordAt(Standard, m, "transaction")
  {
    if m == 12 || m == 24 {
      Chars9To14();
      Chars21To26();
      assert LowerChar(Standard[m + 1]) != 'r';
    } else {
      NoTBefore(m);
      assert LowerChar(Standard[m]) != 't';
    }
    NotWordAt(Standard, m, "transaction");
  }

  lemma TransactionAt()
    ensures AfterWordAndSpaces(Standard, 51, "transaction") == Some(63)
    ensures MatchesWordAt(Standard, 63, "id")
  {
    Chars57To62();
    Chars63To68();
    forall k | 0 <= k < 11 ensures LowerChar(Standard[51 + k]) == "transaction"[k] {
      IdPartAt(k);
      if k == 0 {} else if k == 1 {} else if k == 2 {} else if k == 3 {} else if k == 4 {}
      else if k == 5 {} else if k == 6 {} else if k == 7 {} else if k == 8 {} else if k == 9 {} else {}
    }
    forall k | 0 <= k < 2 ensures LowerChar(Standard[63 + k]) == "id"[k] {
      if k == 0 {} else {}
    }
  }

  lemma IdRunEnds()
    ensures RunEnd(Standard, 65, IsIdSeparator) == 67
    ensures RunEnd(Standard, 67, IsAsciiAlnum) == 77
  {
    Chars63To68();
    Chars69To74();
    IdRunTail();
    assert RunEnd(Standard, 69, IsAsciiAlnum) == 77;
  }

  lemma IdRunTail()
    ensures RunEnd(Standard, 71, IsAsciiAlnum) == 77
  {
    Chars69To74();
    Chars75To80();
    assert RunEnd(Standard, 75, IsAsciiAlnum) == 77;
    assert RunEnd(Standard, 73, IsAsciiAlnum) == 77;
  }

  lemma IdSlice()
    ensures Standard[67..77] == "8675309ABC"
  {
    forall k | 0 <= k < 10 ensures Standard[67..77][k] == "8675309ABC"[k] {
      IdPartAt(16 + k);
      assert Standard[67..77][k] == Standard[67 + k];
    }
  }

  /** The transaction id is 8675309ABC. */
  lemma StandardId()
    ensures Search(Standard, 0, TransactionIdAt) == Some("8675309ABC")
  {
    TransactionAt();
    IdRunEnds();
    IdSlice();
    assert TransactionIdAt(Standard, 51) == Some("8675309ABC");
    forall m | 0 <= m < 51 ensures TransactionIdAt(Standard, m).None? {
      NoTransactionBefore(m);
    }
    SearchIsLeftmost(Standard, 0, TransactionIdAt, 51);
  }

  /** The text's only 'd' or 'D' before index 78 is the one of "ID", at 64. */
  lemma NoDBefore(m: nat)
    requires m < 78 && m != 64
    ensures Standard[m] != 'd' && Standard[m] != 'D'
  {
    if m < 51 {
      NoDInHead(m);
    } else {
      NoDInIdPart(m - 51);
    }
  }

  lemma NoDInHead(m: nat)
    requires m < 51
    ensures Standard[m] != 'd' && Standard[m] != 'D'
  {
    var head := Lead + AmountPart + NamePart;
    assert Standard[m] == head[m];
    NotAt(head, m, 'd');
    NotAt(head, m, 'D');
  }

  lemma NoDInIdPart(k: nat)
    requires k < 27 && k != 13
    ensures Standard[51 + k] != 'd' && Standard[51 + k] != 'D'
  {
    IdPartAt(k);
    if k < 13 {
      NotAt(IdPart[..13], k, 'd');
      NotAt(IdPart[..13], k, 'D');
    } else {
      NotAt(IdPart[14..], k - 14, 'd');
      NotAt(IdPart[14..], k - 14, 'D');
    }
  }

  /** Nothing before index 78 starts "date". */
  lemma NoDateBefore(m: nat)
    requires m < 78
    ensures DateTextAt(Standard, m).None?
  {
    if m == 64 {
      Chars63To68();
    } else {
      NoDBefore(m);
    }
    NotWordAt(Standard, m, "date");
  }

  lemma DateWordAt()
    ensures MatchesWordAt(Standard, 78, "date")
    ensures RunEnd(Standard, 82, IsIdSeparator) == 84
  {
    Chars75To80();
    Chars81To86();
    forall k | 0 <= k < 4 ensures LowerChar(Standard[78 + k]) == "date"[k] {
      if k == 0 {} else if k == 1 {} else if k == 2 {} else {}
    }
  }

  lemma DateSlices()
    ensures Standard[84..86] == "22" && Standard[86] == '/'
    ensures Standard[87..89] == "02" && Standard[89] == '/'
    ensures Standard[90..94] == "2025"
    ensures Standard[94] == ' ' && Standard[95] == '1'
  {
    Chars81To86();
    Chars87To92();
    Chars93To98();
    YearSlice();
    DayMonthSlices();
  }

  lemma YearSlice()
    ensures Standard[90..94] == "2025"
  {
    forall k | 0 <= k < 4 ensures Standard[90..94][k] == "2025"[k] {
      DatePartAt(12 + k);
      assert Standard[90..94][k] == Standard[90 + k];
    }
  }

  lemma DayMonthSlices()
    ensures Standard[84..86] == "22" && Standard[87..89] == "02"
  {
    forall k | 0 <= k < 2 ensures Standard[84..86][k] == "22"[k] {
      DatePartAt(6 + k);
      assert Standard[84..86][k] == Standard[84 + k];
    }
    forall k | 0 <= k < 2 ensures Standard[87..89][k] == "02"[k] {
      DatePartAt(9 + k);
      assert Standard[87..89][k] == Standard[87 + k];
    }
  }

  lemma ClockAt()
    ensures ClockTextAt(Standard, 95) == Some(("10", "34", false))
  {
    Chars93To98();
    Chars99To104();
    assert Standard[95..97] == "10" && Standard[98..100] == "34";
    assert RunEnd(Standard, 100, IsSpace) == 101;
  }

  lemma DateTextAtSeventyEight()
    ensures DateTextAt(Standard, 78) == Some(DateText("22", "02", "2025", "10", "34", false))
  {
    DateWordAt();
    DateFieldsAtEightyFour();
  }

  lemma DateFieldsAtEightyFour()
    ensures DateFieldsAt(Standard, 84) == Some(DateText("22", "02", "2025", "10", "34", false))
  {
    DateSlices();
    DayMonthYearAtEightyFour();
    ClockAt();
    assert RunEnd(Standard, 94, IsSpace) == 95;
  }

  lemma DayMonthYearAtEightyFour()
    ensures DayMonthYearAt(Standard, 84)
  {
    DateSlices();
    assert AllDigits("22") && AllDigits("02") && AllDigits("2025");
  }

  /** 22/02/2025 10:34 AM is 22 February 2025, 10:34. */
  lemma ConvertStandardDate()
    ensures ConvertDate(DateText("22", "02", "2025", "10", "34", false)) == Some(DateTime(Date(2025, 2, 22), 10, 34))
  {
    assert "22"[..1] == "2" && "02"[..1] == "0" && "10"[..1] == "1" && "34"[..1] == "3";
    assert "2025"[..3] == "202" && "202"[..2] == "20" && "20"[..1] == "2";
    assert DigitsValue("2025") == 2025;
    assert DaysInMonth(2025, 2) == 28;
  }

  /** The date is 22 February 2025, 10:34. */
  lemma StandardDate()
    ensures DateIn(Standard) == Some(DateTime(Date(2025, 2, 22), 10, 34))
  {
    DateTextAtSeventyEight();
    forall m | 0 <= m < 78 ensures DateTextAt(Standard, m).None? {
      NoDateBefore(m);
    }
    LeftmostDateDecides(Standard, 78);
    ConvertStandardDate();
  }

  /** `test_parse_standard_sms`: all five fields are found, so the
      confidence is HIGH; the amount is 20.00 cedis, the name "Ama Owusu",
      the phone 0244123456, the id 8675309ABC and the date 22 February 2025,
      10:34. */
  lemma StandardSms()
    ensures ParseSms(Standard)
            == Success(ParsedSms(Some(2000), Some("Ama Owusu"), Some("0244123456"), Some("8675309ABC"),
                                 Some(DateTime(Date(2025, 2, 22), 10, 34)), Standard, High))
  {
    StandardAmount();
    StandardName();
    StandardPhone();
    StandardId();
    StandardDate();
  }
}
