/** The integers canonical JSON admits are the decimal renderings, and minus zero. */
module JsonIntegers {
  import opened Journals
  import opened Decimal
  import Json

  lemma DigitsAgree(s: string)
    ensures Json.AllDigits(s) <==> forall k :: 0 <= k < |s| ==> IsDigit(s[k])
  {
  }

  /** A run of digits without a leading zero is what some number is printed as. */
  lemma {:induction false} PrintedSome(s: string) returns (n: nat)
    requires s != "" && (forall k :: 0 <= k < |s| ==> IsDigit(s[k])) && (|s| > 1 ==> s[0] != '0')
    ensures s == Itoa(n) && (s[0] != '0' ==> n > 0)
  {
    var m := |s| - 1;
    var d := DigitValue(s[m]);
    assert s == s[..m] + [s[m]] && DigitChar(d) == s[m];
    if m == 0 {
      n := d;
    } else {
      var v := PrintedSome(s[..m]);
      n := 10 * v + d;
    }
  }

  /** Nothing else is printed. */
  lemma {:induction false} PrintedPlainly(n: nat)
    ensures Itoa(n) != "" && (|Itoa(n)| > 1 ==> Itoa(n)[0] != '0') && (n > 0 ==> Itoa(n)[0] != '0')
  {
    if n < 10 {
    } else {
      PrintedPlainly(n / 10);
    }
  }

  /** A text is an integer exactly if it is the decimal rendering of one, or minus zero. */
  lemma IntegerIff(s: string)
    ensures Json.IntegerText(s) <==> exists n: nat :: s == Itoa(n) || s == "-" + Itoa(n)
  {
    if Json.IntegerText(s) {
      var digits := if s[0] == '-' then s[1..] else s;
      DigitsAgree(digits);
      var n := PrintedSome(digits);
      assert s == (if s[0] == '-' then "-" + digits else digits);
    }
    if n: nat :| s == Itoa(n) || s == "-" + Itoa(n) {
      PrintedPlainly(n);
      DigitsAgree(Itoa(n));
      assert IsDigit(Itoa(n)[0]);
      assert s == "-" + Itoa(n) ==> s[1..] == Itoa(n);
    }
  }
}
