/**
 * What the two log scripts share: ASCII digit runs, substring search, the scan for the
 * largest run number in a CSV's first column, and Python's sorted() over a set of keys.
 */
module LogText {
  import Text

  predicate IsDigit(c: char)
  {
    '0' <= c <= '9'
  }

  /** str.isdigit(), for ASCII text: non-empty and digits only. */
  predicate IsDigits(s: string)
  {
    |s| > 0 && forall i :: 0 <= i < |s| ==> IsDigit(s[i])
  }

  /** int() of a string of ASCII digits. */
  function DigitsValue(s: string): (n: nat)
    requires forall i :: 0 <= i < |s| ==> IsDigit(s[i])
  {
    if s == [] then 0
    else
      var last := s[|s| - 1];
      assert IsDigit(last);
      DigitsValue(s[..|s| - 1]) * 10 + (last as int - '0' as int)
  }

  /** The length of the run of digits that s starts with. */
  function DigitRun(s: string): (n: nat)
    ensures n <= |s|
    ensures forall i :: 0 <= i < n ==> IsDigit(s[i])
    ensures n == |s| || !IsDigit(s[n])
  {
    if s == [] || !IsDigit(s[0]) then 0 else 1 + DigitRun(s[1..])
  }

  /** The length of the run of whitespace (Python's \s) that s starts with. */
  function BlankRun(s: string): (n: nat)
    ensures n <= |s|
    ensures forall i :: 0 <= i < n ==> Text.PyBlank(s[i])
    ensures n == |s| || !Text.PyBlank(s[n])
  {
    if s == [] || !Text.PyBlank(s[0]) then 0 else 1 + BlankRun(s[1..])
  }

  predicate StartsWith(s: string, prefix: string)
  {
    |prefix| <= |s| && s[..|prefix|] == prefix
  }

  /** Python's `t in s` on strings. */
  predicate Contains(s: string, t: string)
  {
    StartsWith(s, t) || (s != [] && Contains(s[1..], t))
  }

  /** A CSV row whose first field, stripped, is all digits: a run number. */
  predicate HasRunNumber(row: seq<string>)
  {
    |row| > 0 && IsDigits(Text.PyStrip(row[0]))
  }

  function RunNumberOf(row: seq<string>): nat
    requires HasRunNumber(row)
  {
    DigitsValue(Text.PyStrip(row[0]))
  }

  /**
   * The running maximum of the run numbers in the first column, starting from 0: the largest
   * of them, or 0 when there is none.
   */
  method HighestRun(rows: seq<seq<string>>) returns (maxRun: nat)
    ensures forall k :: 0 <= k < |rows| && HasRunNumber(rows[k]) ==> RunNumberOf(rows[k]) <= maxRun
    ensures maxRun == 0 || exists k :: 0 <= k < |rows| && HasRunNumber(rows[k]) && RunNumberOf(rows[k]) == maxRun
  {
    maxRun := 0;
    var i := 0;
    while i < |rows|
      invariant 0 <= i <= |rows|
      invariant forall k :: 0 <= k < i && HasRunNumber(rows[k]) ==> RunNumberOf(rows[k]) <= maxRun
      invariant maxRun == 0 || exists k :: 0 <= k < i && HasRunNumber(rows[k]) && RunNumberOf(rows[k]) == maxRun
    {
      if HasRunNumber(rows[i]) {
        var val := RunNumberOf(rows[i]);
        if val > maxRun {
          maxRun := val;
        }
      }
      i := i + 1;
    }
  }

  /** A non-empty set has a member. */
  lemma HasMember(s: set<int>)
    requires s != {}
    ensures exists m :: m in s
  {
    if forall m :: m !in s {
      assert false;
    }
  }

  /** A non-empty set of integers has a least element. */
  lemma {:induction false} SmallestExists(s: set<int>)
    requires s != {}
    ensures exists m :: m in s && forall x :: x in s ==> m <= x
    decreases |s|
  {
    HasMember(s);
    var y :| y in s;
    var rest := s - {y};
    if rest == {} {
      assert s == {y};
    } else {
      SmallestExists(rest);
      var m :| m in rest && forall x :: x in rest ==> m <= x;
      var least := if y < m then y else m;
      forall x | x in s
        ensures least <= x
      {
        if x != y {
          assert x in rest;
        }
      }
      assert least in s;
    }
  }

  /** sorted() of a set of integers: its members in strictly increasing order. */
  method SortedKeys(s: set<int>) returns (ks: seq<int>)
    ensures forall i, j :: 0 <= i < j < |ks| ==> ks[i] < ks[j]
    ensures forall x :: x in ks <==> x in s
  {
    ks := [];
    var rest := s;
    while rest != {}
      invariant forall x :: x in s <==> x in ks || x in rest
      invariant forall x :: x in ks ==> x !in rest
      invariant forall i, j :: 0 <= i < j < |ks| ==> ks[i] < ks[j]
      invariant forall i, x :: 0 <= i < |ks| && x in rest ==> ks[i] < x
      decreases |rest|
    {
      SmallestExists(rest);
      var m :| m in rest && forall x :: x in rest ==> m <= x;
      ks := ks + [m];
      rest := rest - {m};
    }
  }
}
