/** The chart-label year substitution of both dashboards:
    `label.replace(/\b\d{4}\b/, yearFilter)` replaces the first stand-alone
    four-digit number of a label with the selected year. */
module ChartLabels {
  import opened Optional

  predicate IsDigit(c: char) {
    '0' <= c <= '9'
  }

  /** The characters `\w` matches; `\b` sits between one of them and a
      character that is not one (or an end of the text). */
  predicate IsWordChar(c: char) {
    'a' <= c <= 'z' || 'A' <= c <= 'Z' || IsDigit(c) || c == '_'
  }

  /** `\b\d{4}\b` matches at index `i`. */
  predicate YearAt(s: string, i: int) {
    0 <= i && i + 4 <= |s|
    && (i == 0 || !IsWordChar(s[i - 1]))
    && IsDigit(s[i]) && IsDigit(s[i + 1]) && IsDigit(s[i + 2]) && IsDigit(s[i + 3])
    && (i + 4 == |s| || !IsWordChar(s[i + 4]))
  }

  /** The leftmost match at or after `from`. */
  function FirstYear(s: string, from: nat): (r: Option<nat>)
    ensures r.Some? ==> from <= r.value && YearAt(s, r.value)
    ensures r.Some? ==> forall j :: from <= j < r.value ==> !YearAt(s, j)
    ensures r.None? ==> forall j :: from <= j ==> !YearAt(s, j)
    decreases |s| - from
  {
    if from + 4 > |s| then None
    else if YearAt(s, from) then Some(from)
    else FirstYear(s, from + 1)
  }

  function ReplaceYear(s: string, year: string): (r: string)
    ensures FirstYear(s, 0).None? ==> r == s
    ensures FirstYear(s, 0).Some? ==>
      var i := FirstYear(s, 0).value;
      |r| == |s| - 4 + |year| && r[..i] == s[..i] && r[i..i + |year|] == year && r[i + |year|..] == s[i + 4..]
  {
    match FirstYear(s, 0)
    case None => s
    case Some(i) => s[..i] + year + s[i + 4..]
  }

  predicate IsYear(y: string) {
    |y| == 4 && IsDigit(y[0]) && IsDigit(y[1]) && IsDigit(y[2]) && IsDigit(y[3])
  }

  /** Substituting a year keeps the match where it was: changing the year
      filter twice is the same as choosing the last year directly (so the
      substitution is idempotent). */
  lemma ReplaceYearTwice(s: string, y1: string, y2: string)
    requires IsYear(y1)
    ensures ReplaceYear(ReplaceYear(s, y1), y2) == ReplaceYear(s, y2)
  {
    if FirstYear(s, 0).Some? {
      var i := FirstYear(s, 0).value;
      var t := ReplaceYear(s, y1);
      assert t == s[..i] + y1 + s[i + 4..];
      assert |t| == |s|;
      forall k | 0 <= k < |t| && (k < i || k >= i + 4) ensures t[k] == s[k] {
      }
      assert YearAt(t, i);
      forall j | 0 <= j < i ensures !YearAt(t, j) {
        assert !YearAt(s, j);
        if j + 4 < i {
          assert t[j..j + 5] == s[j..j + 5];
        } else if j + 4 == i {
          assert IsWordChar(t[i]);
        } else {
          assert !IsDigit(t[i - 1]);
        }
      }
      assert FirstYear(t, 0) == Some(i);
    }
  }

  /** A label with one year in it gets the selected year instead. */
  lemma ReplaceYearInLabel(caption: string, year: string)
    requires caption == "April 2025" && IsYear(year)
    ensures ReplaceYear(caption, year) == "April " + year
  {
    assert YearAt(caption, 6);
    forall j | 0 <= j < 6 ensures !YearAt(caption, j) {
      assert !IsDigit(caption[j]) || !IsDigit(caption[j + 1]) || !IsDigit(caption[j + 2]) || !IsDigit(caption[j + 3]);
    }
  }
}
