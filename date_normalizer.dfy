/** `toISODate`: the normaliser the invoice view applies to a stored date
    before placing it in the form's ISO date input. */
module DateNormalizer {
  import opened JsBuiltins

  /** The regular expression `\d` (ASCII digits only, no Unicode flag). */
  predicate IsDigit(c: char)
  {
    '0' <= c <= '9'
  }

  predicate AllDigits(s: string)
  {
    forall i :: 0 <= i < |s| ==> IsDigit(s[i])
  }

  /** The whole string matches `^\d{4}-\d{2}-\d{2}$`. */
  predicate IsIsoDate(s: string)
  {
    |s| == 10 && s[4] == '-' && s[7] == '-' &&
    forall i :: 0 <= i < 10 && i != 4 && i != 7 ==> IsDigit(s[i])
  }

  /** `padStart(2, "0")`. */
  function Pad2(s: string): string
  {
    PadStart(s, 2, '0')
  }

  /** Empty stays empty, ISO passes through, `A/B/C` becomes `C-pad2(A)-pad2(B)`,
      anything else becomes empty: a non-empty result comes only from an ISO
      input or from one with exactly two slashes. */
  function ToISODate(s: string): (r: string)
    ensures r != [] ==> (IsIsoDate(s) && r == s) || Count(s, '/') == 2
  {
    SplitCount(s, '/');
    if s == [] then []
    else if IsIsoDate(s) then s
    else
      var parts := Split(s, '/');
      if |parts| == 3 then parts[2] + "-" + Pad2(parts[0]) + "-" + Pad2(parts[1])
      else []
  }

  /** The empty string and every string already in ISO form come back unchanged. */
  lemma PassesThroughEmptyAndIso(s: string)
    requires s == [] || IsIsoDate(s)
    ensures ToISODate(s) == s
  {
  }

  lemma SlashIsNotIso(s: string)
    requires '/' in s
    ensures !IsIsoDate(s)
  {
  }

  lemma JoinThree(m: string, d: string, y: string)
    ensures Join([m, d, y], '/') == m + "/" + d + "/" + y
  {
    assert [m, d, y][1..] == [d, y];
    assert [d, y][1..] == [y];
    assert Join([d, y], '/') == d + "/" + y;
  }

  /** A slash date `m/d/y` (pieces free of `/`) is rearranged positionally
      to `y-pad2(m)-pad2(d)`, whatever the pieces hold. */
  lemma {:induction false} SlashForm(m: string, d: string, y: string)
    requires '/' !in m && '/' !in d && '/' !in y
    ensures ToISODate(m + "/" + d + "/" + y) == y + "-" + Pad2(m) + "-" + Pad2(d)
  {
    var s := m + "/" + d + "/" + y;
    JoinThree(m, d, y);
    JoinThenSplit([m, d, y], '/');
    assert s[|m|] == '/';
    SlashIsNotIso(s);
  }

  /** A non-empty, non-ISO string without exactly two slashes normalises to `""`. */
  lemma {:induction false} WrongSlashCount(s: string)
    requires s != [] && !IsIsoDate(s) && Count(s, '/') != 2
    ensures ToISODate(s) == []
  {
    SplitCount(s, '/');
  }

  /** Every string with exactly two slashes is a slash date `m/d/y`, so
      `SlashForm` and `WrongSlashCount` between them cover every input. */
  lemma {:induction false} TwoSlashesIsSlashForm(s: string)
    requires Count(s, '/') == 2
    ensures var p := Split(s, '/'); |p| == 3 && s == p[0] + "/" + p[1] + "/" + p[2]
  {
    var p := Split(s, '/');
    SplitCount(s, '/');
    SplitThenJoin(s, '/');
    assert p == [p[0], p[1], p[2]];
    JoinThree(p[0], p[1], p[2]);
  }

  lemma {:induction false} PadDigits(s: string)
    requires 1 <= |s| <= 2 && AllDigits(s)
    ensures |Pad2(s)| == 2 && AllDigits(Pad2(s))
  {
    var p := Pad2(s);
    if |s| == 1 {
      assert p[1..] == s;
      assert p[1] == s[0];
    } else {
      assert p == s;
    }
  }

  lemma IsoFromParts(y: string, a: string, b: string)
    requires |y| == 4 && |a| == 2 && |b| == 2
    requires AllDigits(y) && AllDigits(a) && AllDigits(b)
    ensures IsIsoDate(y + "-" + a + "-" + b)
  {
    var r := y + "-" + a + "-" + b;
    assert r == [y[0], y[1], y[2], y[3], '-', a[0], a[1], '-', b[0], b[1]];
  }

  /** A one- or two-digit month and day with a four-digit year give an ISO date. */
  lemma {:induction false} DigitSlashDateGivesIso(m: string, d: string, y: string)
    requires 1 <= |m| <= 2 && 1 <= |d| <= 2 && |y| == 4
    requires AllDigits(m) && AllDigits(d) && AllDigits(y)
    ensures IsIsoDate(ToISODate(m + "/" + d + "/" + y))
  {
    SlashForm(m, d, y);
    PadDigits(m);
    PadDigits(d);
    IsoFromParts(y, Pad2(m), Pad2(d));
  }

  /** The output never contains `/`. */
  lemma {:induction false} NoSlashInResult(s: string)
    ensures '/' !in ToISODate(s)
  {
    if s != [] && !IsIsoDate(s) {
      var parts := Split(s, '/');
      if |parts| == 3 {
        var r := parts[2] + "-" + Pad2(parts[0]) + "-" + Pad2(parts[1]);
        forall i | 0 <= i < |Pad2(parts[0])| ensures Pad2(parts[0])[i] != '/' {
          var p := parts[0];
          if i >= |Pad2(p)| - |p| { assert Pad2(p)[i] == Pad2(p)[|Pad2(p)| - |p|..][i - (|Pad2(p)| - |p|)]; }
        }
        forall i | 0 <= i < |Pad2(parts[1])| ensures Pad2(parts[1])[i] != '/' {
          var p := parts[1];
          if i >= |Pad2(p)| - |p| { assert Pad2(p)[i] == Pad2(p)[|Pad2(p)| - |p|..][i - (|Pad2(p)| - |p|)]; }
        }
      }
    }
  }

  /** Normalising a second time keeps an ISO result and empties any other one:
      the normaliser is idempotent exactly where its output is an ISO date. */
  lemma {:induction false} SecondPass(s: string)
    ensures ToISODate(ToISODate(s)) == if IsIsoDate(ToISODate(s)) then ToISODate(s) else []
  {
    var r := ToISODate(s);
    if r != [] && !IsIsoDate(r) {
      NoSlashInResult(s);
      CountAbsent(r, '/');
      WrongSlashCount(r);
    }
  }

  lemma PadOneChar(c: char)
    ensures Pad2([c]) == ['0', c]
  {
    assert Pad2([c])[1..] == [c];
  }

  /** `5/1/2024` is zero-padded to `2024-05-01`. */
  lemma {:induction false} ExamplePadded()
    ensures ToISODate("5/1/2024") == "2024-05-01"
  {
    var s := ['5'] + "/" + ['1'] + "/" + "2024";
    assert s == "5/1/2024";
    OneDigitMonthAndDay('5', '1', "2024");
    assert "2024" + "-" + ['0', '5'] + "-" + ['0', '1'] == "2024-05-01";
  }

  lemma {:induction false} OneDigitMonthAndDay(m: char, d: char, y: string)
    requires m != '/' && d != '/' && '/' !in y
    ensures ToISODate([m] + "/" + [d] + "/" + y) == y + "-" + ['0', m] + "-" + ['0', d]
  {
    SlashForm([m], [d], y);
    PadOneChar(m);
    PadOneChar(d);
  }

  /** `2024-05-01` is already ISO and passes through. */
  lemma ExampleIso()
    ensures ToISODate("2024-05-01") == "2024-05-01"
  {
    assert IsIsoDate("2024-05-01");
  }

  /** `2024/05/01` is rearranged positionally, with no range check. */
  lemma {:induction false} ExampleNoRangeCheck()
    ensures ToISODate("2024/05/01") == "01-2024-05"
  {
    var s := "2024" + "/" + "05" + "/" + "01";
    assert s == "2024/05/01";
    LongMonthAndDay("2024", "05", "01");
    assert "01" + "-" + "2024" + "-" + "05" == "01-2024-05";
  }

  lemma {:induction false} LongMonthAndDay(m: string, d: string, y: string)
    requires |m| >= 2 && |d| >= 2 && '/' !in m && '/' !in d && '/' !in y
    ensures ToISODate(m + "/" + d + "/" + y) == y + "-" + m + "-" + d
  {
    SlashForm(m, d, y);
  }

  /** Padding never truncates: a three-character month is kept whole. */
  lemma {:induction false} ExampleNoTruncation()
    ensures ToISODate("123/7/2024") == "2024-123-07"
  {
    var s := "123" + "/" + ['7'] + "/" + "2024";
    assert s == "123/7/2024";
    LongMonthOneDigitDay("123", '7', "2024");
    assert "2024" + "-" + "123" + "-" + ['0', '7'] == "2024-123-07";
  }

  lemma {:induction false} LongMonthOneDigitDay(m: string, d: char, y: string)
    requires |m| >= 2 && '/' !in m && d != '/' && '/' !in y
    ensures ToISODate(m + "/" + [d] + "/" + y) == y + "-" + m + "-" + ['0', d]
  {
    SlashForm(m, [d], y);
    PadOneChar(d);
  }

  lemma {:induction false} ExampleNotADate()
    ensures ToISODate("not-a-date") == ""
  {
    assert !IsDigit("not-a-date"[0]);
    assert '/' !in "not-a-date";
    CountAbsent("not-a-date", '/');
    WrongSlashCount("not-a-date");
  }

  lemma {:induction false} ExampleTwoParts()
    ensures ToISODate("12/25") == ""
  {
    assert Join(["12", "25"], '/') == "12/25";
    JoinThenSplit(["12", "25"], '/');
  }
}
