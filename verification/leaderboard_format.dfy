/** The two display formatters of the leaderboard
    (projects/breaking-news-leaderboard/src/services/api.js).

    `formatNumber` writes an integer with a comma between thousands, by
    the regular-expression replace `/\B(?=(\d{3})+(?!\d))/g` on its
    decimal text; the model states that replace position by position and
    proves it equal to grouping the digits in threes from the right.
    `formatDate` turns a timestamp into "just now", "N sec ago" and so on;
    the clock and `Date` parsing are parameters (milliseconds since the
    epoch), and the locale date it falls back to is left abstract. */
module LeaderboardFormat {
  import opened Common

  predicate IsDigit(c: char)
  {
    '0' <= c <= '9'
  }

  /** A regular-expression word character (`\w`). */
  predicate WordChar(c: char)
  {
    IsDigit(c) || 'a' <= c <= 'z' || 'A' <= c <= 'Z' || c == '_'
  }

  /** The number of digits in a row from position `i`. */
  function DigitRun(s: string, i: nat): nat
    decreases |s| - i
  {
    if i < |s| && IsDigit(s[i]) then 1 + DigitRun(s, i + 1) else 0
  }

  /** The pattern matches the empty text before position `i`: `\B` (both
      neighbours word characters; the lookahead needs a digit at `i`, so
      position 0, with no character before it, is a boundary) and then
      `(\d{3})+(?!\d)`, which holds exactly when the run of digits from `i`
      is a positive multiple of three long. */
  predicate MatchAt(s: string, i: nat)
  {
    0 < i < |s| && WordChar(s[i - 1]) && WordChar(s[i])
    && DigitRun(s, i) > 0 && DigitRun(s, i) % 3 == 0
  }

  /** `s.replace(pattern, ',')` from position `i` on: a comma before every
      position the pattern matches. */
  function ReplaceFrom(s: string, i: nat): string
    decreases |s| - i
  {
    if i >= |s| then ""
    else (if MatchAt(s, i) then "," else "") + [s[i]] + ReplaceFrom(s, i + 1)
  }

  /** `formatNumber(num)` for an integer, or '0' for `null` and
      `undefined` (`None`). */
  function FormatNumber(num: Option<int>): string
  {
    if num.None? then "0" else ReplaceFrom(IntToString(num.value), 0)
  }

  /** Digits grouped in threes from the right, with commas between. */
  function Group(d: string): string
    decreases |d|
  {
    if |d| <= 3 then d else Group(d[..|d| - 3]) + "," + d[|d| - 3..]
  }

  /** The text with every comma taken out. */
  function RemoveCommas(s: string): string
    decreases |s|
  {
    if |s| == 0 then "" else (if s[0] == ',' then "" else [s[0]]) + RemoveCommas(s[1..])
  }

  /** A comma before every character that has a multiple of three
      characters from it to the end, itself included. */
  function CommaEveryThird(t: string): string
    decreases |t|
  {
    if |t| == 0 then "" else (if |t| % 3 == 0 then "," else "") + [t[0]] + CommaEveryThird(t[1..])
  }

  // ---------------------------------------------------------------------
  // The replace groups the digits
  // ---------------------------------------------------------------------

  /** From a position where only digits follow, the run is the rest. */
  lemma {:induction false} DigitRunToEnd(s: string, i: nat)
    requires i <= |s| && forall j :: i <= j < |s| ==> IsDigit(s[j])
    ensures DigitRun(s, i) == |s| - i
    decreases |s| - i
  {
    if i < |s| {
      DigitRunToEnd(s, i + 1);
    }
  }

  /** After a digit, in a tail of digits, the replace puts a comma before
      every third digit from the right. */
  lemma {:induction false} ReplaceInDigits(s: string, i: nat)
    requires 1 <= i <= |s| && forall j :: i - 1 <= j < |s| ==> IsDigit(s[j])
    ensures ReplaceFrom(s, i) == CommaEveryThird(s[i..])
    decreases |s| - i
  {
    if i < |s| {
      DigitRunToEnd(s, i);
      assert MatchAt(s, i) <==> (|s| - i) % 3 == 0;
      ReplaceInDigits(s, i + 1);
      assert s[i..][1..] == s[i + 1..];
    }
  }

  /** A suffix whose length is a multiple of three does not move the
      commas of what precedes it. */
  lemma {:induction false} CommaEveryThirdConcat(a: string, b: string)
    requires |b| % 3 == 0
    ensures CommaEveryThird(a + b) == CommaEveryThird(a) + CommaEveryThird(b)
    decreases |a|
  {
    if |a| == 0 {
      assert a + b == b;
    } else {
      assert (a + b)[1..] == a[1..] + b;
      assert (a + b)[0] == a[0];
      CommaEveryThirdConcat(a[1..], b);
    }
  }

  /** Fewer than three characters get no comma. */
  lemma {:induction false} CommaEveryThirdShort(t: string)
    requires |t| < 3
    ensures CommaEveryThird(t) == t
  {
    if |t| == 1 {
      assert CommaEveryThird(t) == [t[0]] + CommaEveryThird(t[1..]);
      assert t[1..] == [];
      assert [t[0]] == t;
    } else if |t| == 2 {
      var u := t[1..];
      assert CommaEveryThird(u) == [u[0]] + CommaEveryThird(u[1..]);
      assert u[1..] == [];
      assert CommaEveryThird(t) == [t[0]] + CommaEveryThird(u);
      assert [t[0]] + [u[0]] == t;
    }
  }

  /** The first digit followed by the other digits with a comma before
      every third one from the right is the grouping in threes. */
  lemma {:induction false} FirstThenCommasIsGroup(d: string)
    requires |d| > 0
    ensures [d[0]] + CommaEveryThird(d[1..]) == Group(d)
    decreases |d|
  {
    if |d| <= 3 {
      CommaEveryThirdShort(d[1..]);
      assert [d[0]] + d[1..] == d;
    } else {
      var p := d[..|d| - 3];
      var l := d[|d| - 3..];
      assert d[1..] == p[1..] + l;
      CommaEveryThirdConcat(p[1..], l);
      CommaEveryThirdShort(l[1..]);
      assert CommaEveryThird(l) == "," + [l[0]] + l[1..];
      assert [l[0]] + l[1..] == l;
      FirstThenCommasIsGroup(p);
      assert p[0] == d[0];
    }
  }

  /** `formatNumber` is the sign followed by the digits grouped in threes
      from the right. */
  lemma {:induction false} FormatNumberGroups(n: int)
    ensures FormatNumber(Some(n)) == (if n < 0 then "-" else "") + Group(NatToString(if n < 0 then -n else n))
  {
    var s := IntToString(n);
    var d := NatToString(if n < 0 then -n else n);
    if n < 0 {
      assert s == "-" + d by {
        assert s == [s[0]] + s[1..];
      }
      assert forall j :: 1 <= j < |s| ==> IsDigit(s[j]) by {
        forall j | 1 <= j < |s| ensures IsDigit(s[j]) {
          assert s[j] == d[j - 1];
        }
      }
      assert !MatchAt(s, 0) && !MatchAt(s, 1);
      assert ReplaceFrom(s, 0) == "-" + ReplaceFrom(s, 1);
      assert ReplaceFrom(s, 1) == [d[0]] + ReplaceFrom(s, 2);
      ReplaceInDigits(s, 2);
      assert s[2..] == d[1..];
    } else {
      assert s == d;
      assert !MatchAt(s, 0);
      assert ReplaceFrom(s, 0) == [d[0]] + ReplaceFrom(s, 1);
      ReplaceInDigits(s, 1);
    }
    FirstThenCommasIsGroup(d);
  }

  // ---------------------------------------------------------------------
  // Properties of the grouping
  // ---------------------------------------------------------------------

  /** Taking the commas out again gives the digits back. */
  lemma {:induction false} RemoveCommasConcat(a: string, b: string)
    ensures RemoveCommas(a + b) == RemoveCommas(a) + RemoveCommas(b)
    decreases |a|
  {
    if |a| == 0 {
      assert a + b == b;
    } else {
      assert (a + b)[1..] == a[1..] + b;
      RemoveCommasConcat(a[1..], b);
    }
  }

  /** Grouping only inserts commas. */
  lemma {:induction false} GroupRemoveCommas(d: string)
    requires forall j :: 0 <= j < |d| ==> d[j] != ','
    ensures RemoveCommas(Group(d)) == d
    decreases |d|
  {
    if |d| <= 3 {
      NoCommasKept(d);
    } else {
      var p := d[..|d| - 3];
      var l := d[|d| - 3..];
      GroupRemoveCommas(p);
      RemoveCommasConcat(Group(p) + ",", l);
      RemoveCommasConcat(Group(p), ",");
      NoCommasKept(l);
      assert p + l == d;
    }
  }

  /** A text without commas loses nothing. */
  lemma {:induction false} NoCommasKept(s: string)
    requires forall j :: 0 <= j < |s| ==> s[j] != ','
    ensures RemoveCommas(s) == s
    decreases |s|
  {
    if |s| > 0 {
      NoCommasKept(s[1..]);
    }
  }

  /** Removing every comma from `formatNumber(n)` gives `n.toString()`. */
  lemma {:induction false} FormatNumberRemoveCommas(n: int)
    ensures RemoveCommas(FormatNumber(Some(n))) == IntToString(n)
  {
    FormatNumberGroups(n);
    var d := NatToString(if n < 0 then -n else n);
    GroupRemoveCommas(d);
    if n < 0 {
      assert FormatNumber(Some(n)) == "-" + Group(d);
      RemoveCommasConcat("-", Group(d));
      assert RemoveCommas("-") == "-";
      var s := IntToString(n);
      assert s == [s[0]] + s[1..];
      assert s == "-" + d;
      assert RemoveCommas("-" + Group(d)) == "-" + RemoveCommas(Group(d));
    } else {
      assert "" + Group(d) == Group(d);
    }
  }

  /** In grouped digits the commas sit exactly where a multiple of four
      characters remain: every group after the first has three digits,
      and the first has one to three. */
  lemma {:induction false} GroupShape(d: string)
    requires |d| > 0 && forall j :: 0 <= j < |d| ==> d[j] != ','
    ensures var r := Group(d);
      |r| % 4 != 0 && forall j :: 0 <= j < |r| ==> (r[j] == ',' <==> (|r| - j) % 4 == 0)
    decreases |d|
  {
    var r := Group(d);
    if |d| > 3 {
      var p := d[..|d| - 3];
      var l := d[|d| - 3..];
      GroupShape(p);
      var g := Group(p);
      assert r == g + "," + l;
      assert |r| == |g| + 4;
      forall j | 0 <= j < |r|
        ensures r[j] == ',' <==> (|r| - j) % 4 == 0
      {
        if j < |g| {
          assert r[j] == g[j];
          assert g[j] == ',' <==> (|g| - j) % 4 == 0;
          assert (|r| - j) % 4 == (|g| - j) % 4;
        } else if j > |g| {
          assert r[j] == l[j - |g| - 1] == d[|d| - 3 + (j - |g| - 1)];
          assert 0 < |r| - j < 4;
        } else {
          assert r[j] == ',' && |r| - j == 4;
        }
      }
    } else {
      assert r == d;
      forall j | 0 <= j < |r|
        ensures r[j] == ',' <==> (|r| - j) % 4 == 0
      {
        assert 0 < |r| - j < 4;
      }
    }
  }

  /** Integers of at most three digits are written unchanged. */
  lemma {:induction false} SmallNumbersUnchanged(n: int)
    requires -1000 < n < 1000
    ensures FormatNumber(Some(n)) == IntToString(n)
  {
    FormatNumberGroups(n);
    var m: nat := if n < 0 then -n else n;
    ShortDigits(m);
    var d := NatToString(m);
    assert Group(d) == d;
    if n < 0 {
      var s := IntToString(n);
      assert s == [s[0]] + s[1..];
    }
  }

  /** A number below 1000 has at most three digits. */
  lemma ShortDigits(m: nat)
    requires m < 1000
    ensures |NatToString(m)| <= 3
  {
    if m >= 10 {
      assert |NatToString(m)| == |NatToString(m / 10)| + 1;
      if m / 10 >= 10 {
        assert |NatToString(m / 10)| == |NatToString(m / 10 / 10)| + 1;
        assert m / 10 / 10 < 10;
      }
    }
  }

  /** `formatNumber(null)` and `formatNumber(undefined)` are '0'. */
  lemma MissingNumberIsZero()
    ensures FormatNumber(None) == "0"
  {
  }

  // ---------------------------------------------------------------------
  // formatDate
  // ---------------------------------------------------------------------

  /** What `formatDate` returns: a text, or the locale date of the given
      time (`toLocaleDateString`, whose text is not modelled), with the year
      shown or not. */
  datatype DateText = Text(s: string) | LocaleDate(ms: int, withYear: bool)

  /** `Math.floor((new Date() - date) / 1000)`: Dafny's division by a
      positive divisor rounds down, as `Math.floor` does. */
  function SecondsAgo(now: int, time: int): int
  {
    (now - time) / 1000
  }

  /** `formatDate(dateString)` at time `now`, given what `new Date`
      parsed (`None` for an invalid date) and the local calendar years
      `getFullYear` gives for that date and for the clock. */
  function FormatDate(dateString: Option<string>, parsed: Option<int>, now: int, dateYear: int, currentYear: int): DateText
  {
    if dateString.None? || dateString.value == "" then Text("")
    else if parsed.None? then Text("")
    else
      var secondsAgo := SecondsAgo(now, parsed.value);
      if secondsAgo < 5 then Text("just now")
      else if secondsAgo < 60 then Text(IntToString(secondsAgo) + " sec ago")
      else
        var minutesAgo := secondsAgo / 60;
        if minutesAgo < 60 then Text(IntToString(minutesAgo) + " min ago")
        else
          var hoursAgo := minutesAgo / 60;
          if hoursAgo < 24 then Text(IntToString(hoursAgo) + " hr ago")
          else
            var daysAgo := hoursAgo / 24;
            if daysAgo < 7 then Text(IntToString(daysAgo) + " day" + (if daysAgo != 1 then "s" else "") + " ago")
            else LocaleDate(parsed.value, dateYear != currentYear)
  }

  /** An empty, missing or unparseable date is written as ''. */
  lemma NoDateIsEmpty(dateString: Option<string>, parsed: Option<int>, now: int, dateYear: int, currentYear: int)
    requires dateString.None? || dateString.value == "" || parsed.None?
    ensures FormatDate(dateString, parsed, now, dateYear, currentYear) == Text("")
  {
  }

  /** Under five seconds ago, future dates included, is "just now". */
  lemma RecentIsJustNow(dateString: string, time: int, now: int, dateYear: int, currentYear: int)
    requires dateString != "" && now - time < 5000
    ensures FormatDate(Some(dateString), Some(time), now, dateYear, currentYear) == Text("just now")
    ensures now < time ==> SecondsAgo(now, time) < 0
  {
  }

  /** Each bucket counts whole units, rounded down: seconds under a
      minute, minutes under an hour, hours under a day, days under a
      week; a week or more is the locale date, with the year shown exactly
      when it is not the current year. */
  lemma DateBuckets(dateString: string, time: int, now: int, dateYear: int, currentYear: int)
    requires dateString != ""
    ensures var s := (now - time) / 1000; var r := FormatDate(Some(dateString), Some(time), now, dateYear, currentYear);
      (5 <= s < 60 ==> r == Text(IntToString(s) + " sec ago"))
      && (60 <= s < 3600 ==> r == Text(IntToString(s / 60) + " min ago"))
      && (3600 <= s < 86400 ==> r == Text(IntToString(s / 3600) + " hr ago"))
      && (86400 <= s < 172800 ==> r == Text("1 day ago"))
      && (172800 <= s < 604800 ==> r == Text(IntToString(s / 86400) + " days ago"))
      && (s >= 604800 ==> r == LocaleDate(time, dateYear != currentYear))
  {
    var s := (now - time) / 1000;
    if s >= 60 {
      assert s / 60 / 60 == s / 3600;
      assert s / 3600 / 24 == s / 86400;
      if s < 3600 {
        assert s / 60 < 60;
      } else if s < 86400 {
        assert s / 60 >= 60;
        assert s / 3600 < 24;
      } else {
        assert s / 3600 >= 24;
        if s < 172800 {
          assert s / 86400 == 1;
        }
        if s >= 604800 {
          assert s / 86400 >= 7;
        } else {
          assert s / 86400 < 7;
        }
      }
    }
  }
}
