// String helpers the backend builds its chat messages and handler names with:
// Python's str.join, str.split on one character, str.lower on the ASCII
// letters, the "a,b&c" list join of game.py and the "a, b and c" join of the
// mason role.

module Text {
  import opened Types

  /** str.join: the items with `sep` between neighbours. */
  function Join(sep: string, xs: seq<string>): string
  {
    if |xs| == 0 then ""
    else if |xs| == 1 then xs[0]
    else xs[0] + sep + Join(sep, xs[1..])
  }

  /** str.split with a one-character separator; never returns an empty list. */
  function SplitOn(c: char, s: string): (parts: seq<string>)
    ensures |parts| >= 1
  {
    if |s| == 0 then [""]
    else if s[0] == c then [""] + SplitOn(c, s[1..])
    else
      var rest := SplitOn(c, s[1..]);
      [[s[0]] + rest[0]] + rest[1..]
  }

  predicate Free(c: char, xs: seq<string>)
  {
    forall i :: 0 <= i < |xs| ==> c !in xs[i]
  }

  lemma {:induction false} SplitPlain(c: char, s: string)
    requires c !in s
    ensures SplitOn(c, s) == [s]
  {
    if |s| > 0 {
      SplitPlain(c, s[1..]);
      assert [s[0]] + s[1..] == s;
    }
  }

  lemma {:induction false} SplitAfterItem(c: char, a: string, rest: string)
    requires c !in a
    ensures SplitOn(c, a + [c] + rest) == [a] + SplitOn(c, rest)
  {
    if |a| == 0 {
      assert a + [c] + rest == [c] + rest;
      assert ([c] + rest)[1..] == rest;
    } else {
      assert (a + [c] + rest)[1..] == a[1..] + [c] + rest;
      SplitAfterItem(c, a[1..], rest);
      assert [a[0]] + a[1..] == a;
    }
  }

  /** Splitting a join on its separator gives the items back. */
  lemma {:induction false} SplitJoin(c: char, xs: seq<string>)
    requires |xs| >= 1 && Free(c, xs)
    ensures SplitOn(c, Join([c], xs)) == xs
  {
    if |xs| == 1 {
      SplitPlain(c, xs[0]);
    } else {
      assert Free(c, xs[1..]) by {
        forall i | 0 <= i < |xs[1..]| ensures c !in xs[1..][i] {
          assert xs[1..][i] == xs[i + 1];
        }
      }
      SplitJoin(c, xs[1..]);
      SplitAfterItem(c, xs[0], Join([c], xs[1..]));
      assert [xs[0]] + xs[1..] == xs;
    }
  }

  /**
   * game.py's list_join: one or two items joined by "&", three or more as
   * the comma-joined leading items, "&", then the last item.
   */
  function ListJoin(xs: seq<string>): string
  {
    if |xs| > 2 then Join("&", [Join(",", xs[..|xs| - 1]), xs[|xs| - 1]])
    else Join("&", xs)
  }

  /** Reads a ListJoin output back into its items. */
  function ListSplit(s: string): seq<string>
  {
    var parts := SplitOn('&', s);
    if |parts| == 2 then SplitOn(',', parts[0]) + [parts[1]] else parts
  }

  lemma {:induction false} JoinFree(c: char, sep: string, xs: seq<string>)
    requires c !in sep && Free(c, xs)
    ensures c !in Join(sep, xs)
  {
    if |xs| > 1 {
      assert Free(c, xs[1..]) by {
        forall i | 0 <= i < |xs[1..]| ensures c !in xs[1..][i] {
          assert xs[1..][i] == xs[i + 1];
        }
      }
      JoinFree(c, sep, xs[1..]);
    }
  }

  /**
   * Items free of ',' and '&' survive ListJoin: ListSplit recovers them,
   * so the joined text names each of them, in order.
   */
  lemma ListJoinRoundTrip(xs: seq<string>)
    requires |xs| >= 1 && Free(',', xs) && Free('&', xs)
    ensures ListSplit(ListJoin(xs)) == xs
  {
    var n := |xs|;
    if n == 1 {
      SplitPlain('&', xs[0]);
    } else if n == 2 {
      SplitJoin('&', xs);
      SplitPlain(',', xs[0]);
      assert [xs[0]] + [xs[1]] == xs;
    } else {
      var init := xs[..n - 1];
      assert Free(',', init) && Free('&', init) by {
        forall i | 0 <= i < |init| ensures init[i] == xs[i] { }
      }
      JoinFree('&', ",", init);
      SplitJoin('&', [Join(",", init), xs[n - 1]]);
      SplitJoin(',', init);
      assert init + [xs[n - 1]] == xs;
    }
  }

  /** The mason role's join: "", "a", or "a, b and c". */
  function GrammaticalJoin(xs: seq<string>): string
  {
    if |xs| == 0 then ""
    else if |xs| == 1 then xs[0]
    else Join(", ", xs[..|xs| - 1]) + " and " + xs[|xs| - 1]
  }

  /** `a` occurs in `s` starting at offset `i`. */
  predicate OccursAt(s: string, a: string, i: int)
  {
    0 <= i <= |s| - |a| && s[i..i + |a|] == a
  }

  ghost predicate Contains(s: string, a: string)
  {
    exists i :: OccursAt(s, a, i)
  }

  lemma ContainsLeft(s: string, t: string, a: string)
    requires Contains(s, a)
    ensures Contains(s + t, a)
  {
    var i :| OccursAt(s, a, i);
    assert (s + t)[i..i + |a|] == a;
    assert OccursAt(s + t, a, i);
  }

  lemma ContainsRight(p: string, s: string, a: string)
    requires Contains(s, a)
    ensures Contains(p + s, a)
  {
    var i :| OccursAt(s, a, i);
    assert (p + s)[|p| + i..|p| + i + |a|] == a;
    assert OccursAt(p + s, a, |p| + i);
  }

  lemma {:induction false} JoinContainsItem(sep: string, xs: seq<string>, k: nat)
    requires k < |xs|
    ensures Contains(Join(sep, xs), xs[k])
  {
    if |xs| == 1 || k == 0 {
      assert Join(sep, xs)[0..|xs[0]|] == xs[0];
      assert OccursAt(Join(sep, xs), xs[k], 0);
    } else {
      JoinContainsItem(sep, xs[1..], k - 1);
      ContainsRight(xs[0] + sep, Join(sep, xs[1..]), xs[k]);
    }
  }

  /** Every item appears verbatim in the grammatical join. */
  lemma GrammaticalJoinNamesAll(xs: seq<string>, k: nat)
    requires k < |xs|
    ensures Contains(GrammaticalJoin(xs), xs[k])
  {
    var n := |xs|;
    if n == 1 {
      assert OccursAt(GrammaticalJoin(xs), xs[k], 0);
    } else if k < n - 1 {
      JoinContainsItem(", ", xs[..n - 1], k);
      ContainsLeft(Join(", ", xs[..n - 1]), " and " + xs[n - 1], xs[k]);
      assert Join(", ", xs[..n - 1]) + " and " + xs[n - 1]
          == Join(", ", xs[..n - 1]) + (" and " + xs[n - 1]);
    } else {
      var p := Join(", ", xs[..n - 1]) + " and ";
      assert (p + xs[k])[|p|..|p| + |xs[k]|] == xs[k];
      assert OccursAt(p + xs[k], xs[k], |p|);
    }
  }

  function LowerChar(c: char): char
  {
    if 'A' <= c <= 'Z' then (c as int + 32) as char else c
  }

  /** str.lower / String.toLowerCase restricted to the ASCII letters. */
  function Lower(s: string): (r: string)
    ensures |r| == |s|
    ensures forall i :: 0 <= i < |s| ==> r[i] == LowerChar(s[i])
  {
    if |s| == 0 then "" else [LowerChar(s[0])] + Lower(s[1..])
  }

  /** Lower-casing is idempotent and leaves no upper-case ASCII letter. */
  lemma LowerIdempotent(s: string)
    ensures Lower(Lower(s)) == Lower(s)
    ensures forall i :: 0 <= i < |s| ==> !('A' <= Lower(s)[i] <= 'Z')
  {
  }

  /** The text before the first `c`, and the text after it (None when `c` is absent). */
  function SplitFirst(c: char, s: string): (pair: (string, Option<string>))
  {
    if |s| == 0 then ("", None)
    else if s[0] == c then ("", Some(s[1..]))
    else
      var rest := SplitFirst(c, s[1..]);
      ([s[0]] + rest.0, rest.1)
  }

  lemma {:induction false} SplitFirstConcat(c: char, a: string, b: string)
    requires c !in a
    ensures SplitFirst(c, a + [c] + b) == (a, Some(b))
  {
    if |a| == 0 {
      assert a + [c] + b == [c] + b;
      assert ([c] + b)[1..] == b;
    } else {
      assert (a + [c] + b)[1..] == a[1..] + [c] + b;
      SplitFirstConcat(c, a[1..], b);
      assert [a[0]] + a[1..] == a;
    }
  }

  /** Removes `prefix` from the front of `s`, when it is there. */
  function DropPrefix(prefix: string, s: string): Option<string>
  {
    if prefix <= s then Some(s[|prefix|..]) else None
  }

}
