/**
 * The string operations the statement builders use: `Array.prototype.join(",")`,
 * and, as an independent reference to read the joined text back, the
 * comma split `String.prototype.split(",")` and a character count.
 */
module SqlText {

  /** `parts.join(",")`. */
  function Join(parts: seq<string>): (s: string)
    ensures parts == [] ==> s == ""
    ensures |parts| == 1 ==> s == parts[0]
  {
    if |parts| == 0 then ""
    else if |parts| == 1 then parts[0]
    else parts[0] + "," + Join(parts[1..])
  }

  /** `s.split(",")`: the pieces between commas; never empty. */
  function Split(s: string): (r: seq<string>)
    ensures |r| >= 1
  {
    if |s| == 0 then [""]
    else
      var rest := Split(s[1..]);
      if s[0] == ',' then [""] + rest
      else [[s[0]] + rest[0]] + rest[1..]
  }

  /** The number of occurrences of `c` in `s`. */
  function CountChar(s: string, c: char): nat
  {
    if |s| == 0 then 0
    else (if s[0] == c then 1 else 0) + CountChar(s[1..], c)
  }

  /** The total number of occurrences of `c` in all of `parts`. */
  function CountIn(parts: seq<string>, c: char): nat
  {
    if |parts| == 0 then 0 else CountChar(parts[0], c) + CountIn(parts[1..], c)
  }

  /** No part contains the separator, so the join can be split back. */
  predicate NoComma(parts: seq<string>)
  {
    forall i :: 0 <= i < |parts| ==> ',' !in parts[i]
  }

  lemma {:induction false} SplitPlain(a: string)
    requires ',' !in a
    ensures Split(a) == [a]
    decreases |a|
  {
    if |a| > 0 {
      SplitPlain(a[1..]);
      assert [a[0]] + a[1..] == a;
    }
  }

  lemma {:induction false} SplitAfterPlain(a: string, b: string)
    requires ',' !in a
    ensures Split(a + "," + b) == [a] + Split(b)
    decreases |a|
  {
    if |a| == 0 {
      assert a + "," + b == [','] + b;
      assert ([','] + b)[1..] == b;
    } else {
      assert (a + "," + b)[1..] == a[1..] + "," + b;
      SplitAfterPlain(a[1..], b);
      assert [a[0]] + a[1..] == a;
    }
  }

  /** Splitting a comma join gives back the parts, when no part holds a comma. */
  lemma {:induction false} SplitJoin(parts: seq<string>)
    requires |parts| > 0 && NoComma(parts)
    ensures Split(Join(parts)) == parts
    decreases |parts|
  {
    if |parts| == 1 {
      SplitPlain(parts[0]);
    } else {
      assert NoComma(parts[1..]) by {
        forall i | 0 <= i < |parts| - 1 ensures ',' !in parts[1..][i] {
          assert parts[1..][i] == parts[i + 1];
        }
      }
      SplitJoin(parts[1..]);
      assert ',' !in parts[0];
      SplitAfterPlain(parts[0], Join(parts[1..]));
    }
  }

  /** A join of n comma-free parts holds exactly n - 1 commas: one between each pair. */
  lemma {:induction false} JoinSeparators(parts: seq<string>)
    requires |parts| > 0 && NoComma(parts)
    ensures CountChar(Join(parts), ',') == |parts| - 1
    decreases |parts|
  {
    if |parts| == 1 {
      CountAbsent(parts[0], ',');
    } else {
      assert NoComma(parts[1..]) by {
        forall i | 0 <= i < |parts| - 1 ensures ',' !in parts[1..][i] {
          assert parts[1..][i] == parts[i + 1];
        }
      }
      JoinSeparators(parts[1..]);
      CountAppend(parts[0] + ",", Join(parts[1..]), ',');
      CountAppend(parts[0], ",", ',');
      CountAbsent(parts[0], ',');
    }
  }

  lemma {:induction false} CountAppend(a: string, b: string, c: char)
    ensures CountChar(a + b, c) == CountChar(a, c) + CountChar(b, c)
    decreases |a|
  {
    if |a| == 0 {
      assert a + b == b;
    } else {
      assert (a + b)[0] == a[0];
      assert (a + b)[1..] == a[1..] + b;
      CountAppend(a[1..], b, c);
    }
  }

  lemma {:induction false} CountAbsent(s: string, c: char)
    requires c !in s
    ensures CountChar(s, c) == 0
    decreases |s|
  {
    if |s| > 0 {
      assert c !in s[1..] by {
        forall i | 0 <= i < |s| - 1 ensures s[1..][i] != c { assert s[1..][i] == s[i + 1]; }
      }
      CountAbsent(s[1..], c);
    }
  }

  /** Joining with commas adds no occurrence of any other character. */
  lemma {:induction false} CountJoin(parts: seq<string>, c: char)
    requires c != ','
    ensures CountChar(Join(parts), c) == CountIn(parts, c)
    decreases |parts|
  {
    if |parts| > 1 {
      CountJoin(parts[1..], c);
      CountAppend(parts[0] + ",", Join(parts[1..]), c);
      CountAppend(parts[0], ",", c);
      assert CountChar(",", c) == 0;
    }
  }
}
