/**
 * The two nested `format_date` helpers of nanonis_reader/util.py. Each
 * reorders a day-first date to year-first and, when the string does not
 * split the expected way, swallows the error and returns its input.
 */
module Dates {
  import opened Text

  /**
   * `format_date` inside `get_sxm_parameters`: "D.M.Y" becomes "Y.M.D";
   * any string that does not split on '.' into exactly three pieces is
   * returned as it is. Only the pieces move, so the characters are kept.
   */
  function FormatSxmDate(s: string): (r: string)
    ensures multiset(r) == multiset(s)
  {
    var parts := Split(s, '.');
    if |parts| == 3 then
      SplitJoin(s, '.');
      JoinThree(parts[0], parts[1], parts[2], '.');
      assert parts == [parts[0], parts[1], parts[2]];
      parts[2] + "." + parts[1] + "." + parts[0]
    else s
  }

  /**
   * `format_date` inside `get_dat_parameters`: "D.M.Y time" becomes
   * "Y.M.D_time", provided the string splits on ' ' into exactly two pieces
   * and the first of them splits on '.' into exactly three; otherwise the
   * input comes back unchanged. The result has the input's length.
   */
  function FormatDatDate(s: string): (r: string)
    ensures |r| == |s|
  {
    var halves := Split(s, ' ');
    if |halves| != 2 then s
    else
      var date := Split(halves[0], '.');
      if |date| != 3 then s
      else
        SplitJoin(s, ' ');
        SplitJoin(halves[0], '.');
        JoinTwo(halves[0], halves[1], ' ');
        assert halves == [halves[0], halves[1]];
        JoinThree(date[0], date[1], date[2], '.');
        assert date == [date[0], date[1], date[2]];
        assert |s| == |halves[0]| + 1 + |halves[1]|;
        assert |halves[0]| == |date[0]| + |date[1]| + |date[2]| + 2;
        date[2] + "." + date[1] + "." + date[0] + "_" + halves[1]
  }

  /** Every "D.M.Y" made of dot-free pieces is reordered to "Y.M.D". */
  lemma {:induction false} SxmDateOfParts(d: string, m: string, y: string)
    requires '.' !in d && '.' !in m && '.' !in y
    ensures FormatSxmDate(d + "." + m + "." + y) == y + "." + m + "." + d
  {
    JoinSplit([d, m, y], '.');
    JoinThree(d, m, y, '.');
  }

  /**
   * The two outcomes of the sxm helper: without exactly two dots the input
   * is returned; with exactly two dots the input is some "D.M.Y" with
   * dot-free pieces and the result is "Y.M.D".
   */
  lemma {:induction false} SxmDateCases(s: string) returns (d: string, m: string, y: string)
    ensures Count(s, '.') != 2 ==> FormatSxmDate(s) == s
    ensures Count(s, '.') == 2 ==>
      && '.' !in d && '.' !in m && '.' !in y
      && s == d + "." + m + "." + y
      && FormatSxmDate(s) == y + "." + m + "." + d
  {
    var parts := Split(s, '.');
    d, m, y := "", "", "";
    if |parts| == 3 {
      d, m, y := parts[0], parts[1], parts[2];
      SplitJoin(s, '.');
      assert parts == [d, m, y];
      JoinThree(d, m, y, '.');
    }
  }

  /** The sxm helper is an involution: applying it twice restores the input. */
  lemma {:induction false} SxmDateInvolution(s: string)
    ensures FormatSxmDate(FormatSxmDate(s)) == s
  {
    var parts := Split(s, '.');
    if |parts| == 3 {
      SplitJoin(s, '.');
      assert parts == [parts[0], parts[1], parts[2]];
      JoinThree(parts[0], parts[1], parts[2], '.');
      SxmDateOfParts(parts[2], parts[1], parts[0]);
    }
  }


  /**
   * Every "D.M.Y time" whose date pieces hold neither '.' nor ' ' and whose
   * time holds no ' ' is rewritten to "Y.M.D_time".
   */
  lemma {:induction false} DatDateOfParts(d: string, m: string, y: string, t: string)
    requires '.' !in d && '.' !in m && '.' !in y
    requires ' ' !in d && ' ' !in m && ' ' !in y && ' ' !in t
    ensures FormatDatDate(d + "." + m + "." + y + " " + t) == y + "." + m + "." + d + "_" + t
  {
    var date := d + "." + m + "." + y;
    JoinSplit([date, t], ' ');
    JoinTwo(date, t, ' ');
    JoinSplit([d, m, y], '.');
    JoinThree(d, m, y, '.');
  }

  /**
   * The converse: whenever the dat helper changes its input, the input was
   * "D.M.Y time" with such pieces and the output is "Y.M.D_time". In
   * particular an input without exactly one space is returned unchanged.
   */
  lemma {:induction false} DatDateCases(s: string) returns (d: string, m: string, y: string, t: string)
    ensures Count(s, ' ') != 1 ==> FormatDatDate(s) == s
    ensures FormatDatDate(s) != s ==>
      && '.' !in d && '.' !in m && '.' !in y
      && ' ' !in d && ' ' !in m && ' ' !in y && ' ' !in t
      && s == d + "." + m + "." + y + " " + t
      && FormatDatDate(s) == y + "." + m + "." + d + "_" + t
  {
    d, m, y, t := "", "", "", "";
    var halves := Split(s, ' ');
    if |halves| == 2 {
      var date := Split(halves[0], '.');
      if |date| == 3 {
        d, m, y, t := date[0], date[1], date[2], halves[1];
        SplitJoin(s, ' ');
        SplitJoin(halves[0], '.');
        assert halves == [halves[0], t];
        JoinTwo(halves[0], t, ' ');
        assert date == [d, m, y];
        JoinThree(d, m, y, '.');
      }
    }
  }

  /**
   * The dat helper is idempotent: its rewritten output holds no space, so a
   * second application leaves it alone.
   */
  lemma {:induction false} DatDateIdempotent(s: string)
    ensures FormatDatDate(FormatDatDate(s)) == FormatDatDate(s)
  {
    var r := FormatDatDate(s);
    if r != s {
      var d, m, y, t := DatDateCases(s);
      assert ' ' !in r;
      JoinSplit([r], ' ');
    }
  }

  /** The date 5 March 2024, day first, becomes "2024.03.05". */
  lemma SxmDateExample()
    ensures FormatSxmDate("05" + "." + "03" + "." + "2024") == "2024" + "." + "03" + "." + "05"
  {
    SxmDateOfParts("05", "03", "2024");
  }

  /** The date 5 March 2024 at 13:45, day first, becomes "2024.03.05_13:45:00". */
  lemma DatDateExample()
    ensures FormatDatDate("05" + "." + "03" + "." + "2024" + " " + "13:45:00")
         == "2024" + "." + "03" + "." + "05" + "_" + "13:45:00"
  {
    DatDateOfParts("05", "03", "2024", "13:45:00");
  }
}
