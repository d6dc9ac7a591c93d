/** The date check of the validation lesson: eight digits whose fifth and
    sixth characters, compared as text, lie between "01" and "12". The day
    is not checked. */
module DateCheck {
  import opened Strings

  /** isValidDate. */
  predicate IsValidDate(date: string)
  {
    |date| == 8 && AllDigits(date) && !Less(date[4..6], "01") && !Less("12", date[4..6])
  }

  /** A date is valid iff it is eight digits and its month number, read as
      a number, is between 1 and 12. */
  lemma ValidDateMonth(date: string)
    ensures IsValidDate(date) <==>
      |date| == 8 && AllDigits(date) && 1 <= ParseDigits(date[4..6]) <= 12
  {
    if |date| == 8 && AllDigits(date) {
      MonthCheckNumeric(date[4..6]);
    }
  }

  /** The day is never looked at: the 99th of December passes, while month
      13 and a seven-digit date do not. */
  lemma DayNotChecked()
    ensures IsValidDate("20231299")
    ensures !IsValidDate("20231301")
    ensures !IsValidDate("2023120")
  {
    ValidDateMonth("20231299");
    ValidDateMonth("20231301");
    assert "20231299"[4..6] == "12";
    assert "20231301"[4..6] == "13";
    assert ParseDigits("12") == 12 by {
      assert "12"[..1] == "1";
      assert "1"[..0] == [];
    }
    assert ParseDigits("13") == 13 by {
      assert "13"[..1] == "1";
      assert "1"[..0] == [];
    }
  }
}
