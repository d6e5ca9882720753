/** The three functions of Go's `strings` package that the relay uses, on
    the arguments it passes them: `Index(s, ": ")`, `Split(s, "\n")` and
    `Trim(s, ",")`. */
module Strings {

  // ---------------------------------------------------------------------
  // strings.Index(s, ": ")

  /** The header separator `": "` starts at position `k` of `s`. */
  predicate SepAt(s: string, k: int) {
    0 <= k && k + 2 <= |s| && s[k] == ':' && s[k + 1] == ' '
  }

  ghost predicate ContainsSep(s: string) {
    exists k :: SepAt(s, k)
  }

  /** The position of the first `": "` in `s`, or -1 when there is none. */
  function IndexSep(s: string): (r: int)
    ensures -1 <= r
    ensures r >= 0 ==> SepAt(s, r) && forall k :: 0 <= k < r ==> !SepAt(s, k)
    ensures r == -1 <==> !ContainsSep(s)
    decreases |s|
  {
    if |s| < 2 then -1
    else if s[0] == ':' && s[1] == ' ' then 0
    else
      var i := IndexSep(s[1..]);
      assert forall k {:trigger SepAt(s, k)} :: SepAt(s, k) ==> k >= 1 && SepAt(s[1..], k - 1);
      assert forall k {:trigger SepAt(s[1..], k)} :: SepAt(s[1..], k) ==> SepAt(s, k + 1);
      if i < 0 then -1 else i + 1
  }

  // ---------------------------------------------------------------------
  // strings.Split(s, "\n")

  /** The inverse of splitting: the lines glued back with `'\n'`. */
  function JoinLines(lines: seq<string>): string
    requires |lines| >= 1
  {
    if |lines| == 1 then lines[0] else lines[0] + "\n" + JoinLines(lines[1..])
  }

  /** Go's `strings.Split(s, "\n")`: the pieces between newlines. There is
      always at least one piece (`Split("", "\n")` is `[""]`). */
  function SplitLines(s: string): (r: seq<string>)
    ensures |r| >= 1
    ensures forall i :: 0 <= i < |r| ==> '\n' !in r[i]
    ensures JoinLines(r) == s
    decreases |s|
  {
    if |s| == 0 then [""]
    else
      var rest := SplitLines(s[1..]);
      if s[0] == '\n' then
        assert [""] + rest == [""] + rest;
        [""] + rest
      else
        var r := [[s[0]] + rest[0]] + rest[1..];
        assert r[1..] == rest[1..];
        r
  }

  /** Splitting a line that starts with a newline. */
  lemma SplitNewline(s: string)
    ensures SplitLines("\n" + s) == [""] + SplitLines(s)
  {
    assert ("\n" + s)[1..] == s;
  }

  /** Splitting a line that starts with another character. */
  lemma SplitCons(c: char, s: string)
    requires c != '\n'
    ensures SplitLines([c] + s) == [[c] + SplitLines(s)[0]] + SplitLines(s)[1..]
  {
    assert ([c] + s)[1..] == s;
  }

  /** Gluing lines whose first line starts with `c`. */
  lemma JoinCons(c: char, first: string, rest: seq<string>)
    ensures JoinLines([[c] + first] + rest) == [c] + JoinLines([first] + rest)
  {
    var l := [[c] + first] + rest;
    var m := [first] + rest;
    assert l[1..] == rest && m[1..] == rest;
    if |rest| > 0 {
      assert JoinLines(l) == [c] + first + "\n" + JoinLines(rest);
    }
  }

  /** Splitting undoes joining: any non-empty list of newline-free lines
      comes back unchanged. */
  lemma {:induction false} SplitJoin(lines: seq<string>)
    requires |lines| >= 1
    requires forall i :: 0 <= i < |lines| ==> '\n' !in lines[i]
    ensures SplitLines(JoinLines(lines)) == lines
    decreases |lines|, |lines[0]|
  {
    if |lines| == 1 {
      SplitNoNewline(lines[0]);
    } else if lines[0] == "" {
      var tail := lines[1..];
      SplitJoin(tail);
      assert JoinLines(lines) == "\n" + JoinLines(tail);
      SplitNewline(JoinLines(tail));
      assert [""] + tail == lines;
    } else {
      var c := lines[0][0];
      var first := lines[0][1..];
      var tail := lines[1..];
      assert lines[0] == [c] + first;
      assert lines == [[c] + first] + tail;
      var shorter := [first] + tail;
      assert shorter[1..] == tail;
      assert '\n' !in first;
      SplitJoin(shorter);
      JoinCons(c, first, tail);
      SplitCons(c, JoinLines(shorter));
    }
  }

  /** A newline-free string is a single line. */
  lemma {:induction false} SplitNoNewline(s: string)
    requires '\n' !in s
    ensures SplitLines(s) == [s]
    decreases |s|
  {
    if |s| > 0 {
      assert '\n' !in s[1..] by {
        assert forall j :: 0 <= j < |s[1..]| ==> s[1..][j] == s[j + 1];
      }
      SplitNoNewline(s[1..]);
      assert [s[0]] + s[1..] == s;
    }
  }

  /** `Split` yields at least two lines exactly when there is a newline. */
  lemma {:induction false} TwoLinesIffNewline(s: string)
    ensures |SplitLines(s)| >= 2 <==> '\n' in s
    decreases |s|
  {
    if '\n' !in s {
      SplitNoNewline(s);
    } else if s[0] != '\n' {
      assert '\n' in s[1..] by {
        var j :| 0 <= j < |s| && s[j] == '\n';
        assert s[1..][j - 1] == '\n';
      }
      TwoLinesIffNewline(s[1..]);
    }
  }

  // ---------------------------------------------------------------------
  // strings.Trim(s, ",")

  /** The first position at or after `i` that does not hold a comma. */
  function SkipCommas(s: string, i: nat): (n: nat)
    requires i <= |s|
    ensures i <= n <= |s|
    ensures forall k :: i <= k < n ==> s[k] == ','
    ensures n == |s| || s[n] != ','
    decreases |s| - i
  {
    if i < |s| && s[i] == ',' then SkipCommas(s, i + 1) else i
  }

  /** The position after the last character in `s[lo..j]` that is not a
      comma (`lo` when there is none). */
  function SkipCommasBack(s: string, lo: nat, j: nat): (n: nat)
    requires lo <= j <= |s|
    ensures lo <= n <= j
    ensures forall k :: n <= k < j ==> s[k] == ','
    ensures n == lo || s[n - 1] != ','
    decreases j
  {
    if lo < j && s[j - 1] == ',' then SkipCommasBack(s, lo, j - 1) else j
  }

  /** Where the trimmed string starts. */
  function TrimStart(s: string): (n: nat)
    ensures n <= |s|
  {
    SkipCommas(s, 0)
  }

  /** Where the trimmed string ends. */
  function TrimEnd(s: string): (n: nat)
    ensures TrimStart(s) <= n <= |s|
  {
    SkipCommasBack(s, TrimStart(s), |s|)
  }

  /** Go's `strings.Trim(s, ",")`: commas are trimmed from both ends. */
  function TrimCommas(s: string): (r: string)
    ensures |r| <= |s|
    ensures r == [] || (r[0] != ',' && r[|r| - 1] != ',')
  {
    s[TrimStart(s)..TrimEnd(s)]
  }

  /** Only commas lie outside the trimmed part, and the trimmed part, when
      not empty, neither starts nor ends with one. */
  lemma TrimCommasDropsCommas(s: string)
    ensures forall k :: 0 <= k < TrimStart(s) ==> s[k] == ','
    ensures forall k :: TrimEnd(s) <= k < |s| ==> s[k] == ','
    ensures TrimStart(s) < TrimEnd(s) ==> s[TrimStart(s)] != ',' && s[TrimEnd(s) - 1] != ','
  {
  }

  /** Skipping commas stops at the first other character. */
  lemma {:induction false} SkipCommasUnique(s: string, i: nat, n: nat)
    requires i <= n <= |s|
    requires forall k :: i <= k < n ==> s[k] == ','
    requires n == |s| || s[n] != ','
    ensures SkipCommas(s, i) == n
    decreases n - i
  {
    if i < n {
      SkipCommasUnique(s, i + 1, n);
    }
  }

  /** Skipping commas backwards stops after the last other character. */
  lemma {:induction false} SkipCommasBackUnique(s: string, lo: nat, j: nat, n: nat)
    requires lo <= n <= j <= |s|
    requires forall k :: n <= k < j ==> s[k] == ','
    requires n == lo || s[n - 1] != ','
    ensures SkipCommasBack(s, lo, j) == n
    decreases j - n
  {
    if n < j {
      SkipCommasBackUnique(s, lo, j - 1, n);
    }
  }

  /** `Trim(s, ",")` is the only slice of `s` that drops nothing but commas
      at the edges and has none left at its own ends. */
  lemma TrimCommasUnique(s: string, i: nat, j: nat)
    requires i <= j <= |s|
    requires forall k :: 0 <= k < i ==> s[k] == ','
    requires forall k :: j <= k < |s| ==> s[k] == ','
    requires i == j || (s[i] != ',' && s[j - 1] != ',')
    ensures TrimCommas(s) == s[i..j]
  {
    if i < j {
      SkipCommasUnique(s, 0, i);
      SkipCommasBackUnique(s, i, |s|, j);
    } else {
      SkipCommasUnique(s, 0, |s|);
    }
  }

  /** A comma in front is trimmed away. */
  lemma TrimCommasCons(x: string)
    ensures TrimCommas("," + x) == TrimCommas(x)
  {
    var s := "," + x;
    var i, j := TrimStart(x), TrimEnd(x);
    TrimCommasDropsCommas(x);
    forall k | 0 <= k < i + 1 ensures s[k] == ',' {
      if k > 0 { assert s[k] == x[k - 1]; }
    }
    forall k | j + 1 <= k < |s| ensures s[k] == ',' {
      assert s[k] == x[k - 1];
    }
    if i < j {
      assert s[i + 1] == x[i] && s[j] == x[j - 1];
    }
    TrimCommasUnique(s, i + 1, j + 1);
    assert s[i + 1..j + 1] == x[i..j];
  }

  /** A comma at the end is trimmed away. */
  lemma TrimCommasSnoc(c: string)
    ensures TrimCommas(c + ",") == TrimCommas(c)
  {
    var s := c + ",";
    var i, j := TrimStart(c), TrimEnd(c);
    TrimCommasDropsCommas(c);
    forall k | 0 <= k < i ensures s[k] == ',' {
      assert s[k] == c[k];
    }
    forall k | j <= k < |s| ensures s[k] == ',' {
      if k < |c| { assert s[k] == c[k]; }
    }
    if i < j {
      assert s[i] == c[i] && s[j - 1] == c[j - 1];
    }
    TrimCommasUnique(s, i, j);
    assert s[i..j] == c[i..j];
  }
}
