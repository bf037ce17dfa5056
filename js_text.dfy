/**
 * The JavaScript string operations the test runner relies on: anchored
 * regular-expression tests, `Array.prototype.sort` with its default order,
 * `String.prototype.replaceAll` with an empty replacement, and the
 * `replace` of the global pattern `\n.*` by the empty string that keeps an error message's first line.
 */
module JsText {

  /** `/^p/.test(s)` for a literal `p`: `s` begins with `p`. */
  predicate StartsWith(s: string, p: string) {
    p <= s
  }

  /** `/p$/.test(s)` for a literal `p` (no multiline flag): `s` ends with `p`. */
  predicate EndsWith(s: string, p: string) {
    |p| <= |s| && s[|s| - |p|..] == p
  }

  /** `p` occurs somewhere inside `s`. */
  predicate Contains(s: string, p: string) {
    p <= s || (s != [] && Contains(s[1..], p))
  }

  // ---------------------------------------------------------------------
  // The default order of Array.prototype.sort on strings
  // ---------------------------------------------------------------------

  /** String comparison by character codes, shorter prefix first. */
  predicate Below(a: string, b: string) {
    a == [] || (b != [] && (a[0] < b[0] || (a[0] == b[0] && Below(a[1..], b[1..]))))
  }

  lemma {:induction false} BelowTotal(a: string, b: string)
    ensures Below(a, b) || Below(b, a)
  {
    if a != [] && b != [] && a[0] == b[0] {
      BelowTotal(a[1..], b[1..]);
    }
  }

  lemma {:induction false} BelowAntisymmetric(a: string, b: string)
    requires Below(a, b) && Below(b, a)
    ensures a == b
  {
    if a != [] && b != [] {
      BelowAntisymmetric(a[1..], b[1..]);
      assert a == [a[0]] + a[1..] && b == [b[0]] + b[1..];
    }
  }

  lemma {:induction false} BelowTransitive(a: string, b: string, c: string)
    requires Below(a, b) && Below(b, c)
    ensures Below(a, c)
  {
    if a != [] && b != [] && c != [] && a[0] == b[0] == c[0] {
      BelowTransitive(a[1..], b[1..], c[1..]);
    }
  }

  /** Every element is at or below the one after it. */
  predicate Ascending(s: seq<string>) {
    forall i :: 0 < i < |s| ==> Below(s[i - 1], s[i])
  }

  /** Inserts `x` into an ascending list, before the first element it is at or below. */
  function Insert(x: string, s: seq<string>): (r: seq<string>)
    ensures multiset(r) == multiset(s) + multiset{x}
    ensures |r| == |s| + 1
    ensures r[0] == x || (s != [] && r[0] == s[0])
    ensures Ascending(s) ==> Ascending(r)
  {
    if s == [] || Below(x, s[0]) then
      [x] + s
    else
      BelowTotal(x, s[0]);
      assert s == [s[0]] + s[1..];
      [s[0]] + Insert(x, s[1..])
  }

  /** `listing.sort()`: the listing in ascending order, as a permutation of it. */
  function Sort(s: seq<string>): (r: seq<string>)
    ensures Ascending(r)
    ensures multiset(r) == multiset(s)
    ensures |r| == |s|
  {
    if s == [] then []
    else
      assert s == [s[0]] + s[1..];
      Insert(s[0], Sort(s[1..]))
  }

  /** An ascending list has every pair in order, not only neighbours. */
  lemma {:induction false} AscendingPairs(s: seq<string>, i: nat, j: nat)
    requires Ascending(s) && i <= j < |s|
    ensures Below(s[i], s[j])
    decreases j - i
  {
    if i == j {
      BelowReflexive(s[i]);
    } else {
      AscendingPairs(s, i, j - 1);
      BelowTransitive(s[i], s[j - 1], s[j]);
    }
  }

  lemma {:induction false} BelowReflexive(a: string)
    ensures Below(a, a)
  {
    if a != [] {
      BelowReflexive(a[1..]);
    }
  }

  /** The first element of an ascending list is at or below each of its elements. */
  lemma LeastFirst(s: seq<string>, x: string)
    requires Ascending(s) && x in multiset(s)
    ensures s != [] && Below(s[0], x)
  {
    var i :| 0 <= i < |s| && s[i] == x;
    AscendingPairs(s, 0, i);
  }

  /** Two ascending lists with the same elements are the same list. */
  lemma {:induction false} AscendingUnique(a: seq<string>, b: seq<string>)
    requires Ascending(a) && Ascending(b) && multiset(a) == multiset(b)
    ensures a == b
    decreases |a|
  {
    if a == [] {
      assert |multiset(b)| == 0;
    } else {
      SameHead(a, b);
      DropHead(a);
      DropHead(b);
      AscendingUnique(a[1..], b[1..]);
      assert a == [a[0]] + a[1..] && b == [b[0]] + b[1..];
    }
  }

  /** Two non-empty ascending lists with the same elements start alike. */
  lemma SameHead(a: seq<string>, b: seq<string>)
    requires Ascending(a) && Ascending(b) && multiset(a) == multiset(b) && a != []
    ensures b != [] && a[0] == b[0]
  {
    assert a[0] in multiset(a);
    LeastFirst(b, a[0]);
    assert b[0] in multiset(b);
    LeastFirst(a, b[0]);
    BelowAntisymmetric(a[0], b[0]);
  }

  /** The tail of an ascending list is ascending and holds the other elements. */
  lemma DropHead(a: seq<string>)
    requires Ascending(a) && a != []
    ensures Ascending(a[1..])
    ensures multiset(a[1..]) == multiset(a) - multiset{a[0]}
  {
    assert a == [a[0]] + a[1..];
  }

  /**
   * The sorted order is unique: any ascending permutation of the listing is
   * the one `Sort` returns, so the order of discovered tests does not depend
   * on the order in which the directory is read.
   */
  lemma SortUnique(s: seq<string>, t: seq<string>)
    requires Ascending(t) && multiset(t) == multiset(s)
    ensures t == Sort(s)
  {
    AscendingUnique(t, Sort(s));
  }

  // ---------------------------------------------------------------------
  // String.prototype.replaceAll(p, '')
  // ---------------------------------------------------------------------

  /** `s.replaceAll(p, '')`: every non-overlapping occurrence of `p`, found left to right, removed. A string without an occurrence comes back unchanged. */
  function RemoveAll(s: string, p: string): (r: string)
    requires p != []
    ensures |r| <= |s|
    ensures !Contains(s, p) ==> r == s
  {
    if s == [] then []
    else if p <= s then RemoveAll(s[|p|..], p)
    else
      assert s == [s[0]] + s[1..];
      [s[0]] + RemoveAll(s[1..], p)
  }

  /**
   * Removing ".mjs" from a module file name `stem + ".mjs"` leaves `stem`,
   * provided `stem` does not itself contain ".mjs" (".mjs" cannot overlap
   * itself, so no occurrence straddles the end of `stem`).
   */
  lemma {:induction false} RemoveModuleSuffix(stem: string)
    requires !Contains(stem, ".mjs")
    ensures RemoveAll(stem + ".mjs", ".mjs") == stem
  {
    var s := stem + ".mjs";
    if stem == [] {
      assert s == ".mjs";
      assert RemoveAll(s, ".mjs") == RemoveAll([], ".mjs");
    } else {
      assert !(".mjs" <= s) by {
        if |stem| >= 4 {
          assert s[..4] == stem[..4];
          assert !(".mjs" <= stem);
        } else if |stem| == 1 {
          assert s[1] == '.';
        } else if |stem| == 2 {
          assert s[2] == '.';
        } else {
          assert s[3] == '.';
        }
      }
      assert s[1..] == stem[1..] + ".mjs";
      RemoveModuleSuffix(stem[1..]);
      assert stem == [stem[0]] + stem[1..];
    }
  }

  // ---------------------------------------------------------------------
  // message.replace of the global pattern \n.* by the empty string
  // ---------------------------------------------------------------------

  /** The characters `.` does not match in a JavaScript regular expression without the `s` flag. */
  predicate IsLineTerminator(c: char) {
    c == '\n' || c == '\r' || c == '\U{2028}' || c == '\U{2029}'
  }

  /** What `.*` consumes: the longest prefix free of line terminators is skipped. */
  function SkipLine(s: string): (r: string)
    ensures |r| <= |s|
    ensures r == s[|s| - |r|..]
    ensures r == [] || IsLineTerminator(r[0])
  {
    if s != [] && !IsLineTerminator(s[0]) then SkipLine(s[1..]) else s
  }

  /** `s.replace` of the global pattern `\n.*` by the empty string: each line feed is removed together with the rest of its line. */
  function DropContinuations(s: string): (r: string)
    ensures |r| <= |s|
    ensures '\n' !in s ==> r == s
    decreases |s|
  {
    if s == [] then []
    else if s[0] == '\n' then DropContinuations(SkipLine(s[1..]))
    else [s[0]] + DropContinuations(s[1..])
  }

  /** The text before the first line feed. */
  function FirstLine(s: string): (r: string)
  {
    if s == [] || s[0] == '\n' then [] else [s[0]] + FirstLine(s[1..])
  }

  /** The shortened message never spans several lines. */
  lemma {:induction false} DropContinuationsSingleLine(s: string)
    ensures '\n' !in DropContinuations(s)
    decreases |s|
  {
    if s != [] {
      if s[0] == '\n' {
        DropContinuationsSingleLine(SkipLine(s[1..]));
      } else {
        DropContinuationsSingleLine(s[1..]);
      }
    }
  }

  /**
   * For a message whose only line terminator is the line feed, the shortened
   * message is exactly its first line.
   */
  lemma {:induction false} DropContinuationsIsFirstLine(s: string)
    requires forall i :: 0 <= i < |s| && IsLineTerminator(s[i]) ==> s[i] == '\n'
    ensures DropContinuations(s) == FirstLine(s)
    decreases |s|
  {
    if s != [] {
      if s[0] == '\n' {
        var t := SkipLine(s[1..]);
        assert t == s[|s| - |t|..];
        DropContinuationsAfterBreak(t);
      } else {
        DropContinuationsIsFirstLine(s[1..]);
      }
    }
  }

  /** After a skipped line only line-feed-led lines remain, and all of them are dropped. */
  lemma {:induction false} DropContinuationsAfterBreak(t: string)
    requires t == [] || t[0] == '\n'
    requires forall i :: 0 <= i < |t| && IsLineTerminator(t[i]) ==> t[i] == '\n'
    ensures DropContinuations(t) == []
    decreases |t|
  {
    if t != [] {
      var u := SkipLine(t[1..]);
      assert u == t[|t| - |u|..];
      assert u == [] || u[0] == t[|t| - |u|];
      DropContinuationsAfterBreak(u);
    }
  }

  // ---------------------------------------------------------------------
  // Number to string
  // ---------------------------------------------------------------------

  /**
   * The decimal digits of `n`, as `String(n)` writes a whole number: digits
   * only, and no leading zero.
   */
  function Decimal(n: nat): (r: string)
    ensures r != []
    ensures forall i :: 0 <= i < |r| ==> '0' <= r[i] <= '9'
    ensures r[0] == '0' ==> n == 0
  {
    if n < 10 then [DigitChar(n)] else Decimal(n / 10) + [DigitChar(n % 10)]
  }

  function DigitChar(d: nat): (c: char)
    requires d < 10
    ensures '0' <= c <= '9'
    ensures c as int - '0' as int == d
  {
    ('0' as int + d) as char
  }

  /** The number a string of decimal digits stands for. */
  function DigitsValue(s: string): nat
    requires forall i :: 0 <= i < |s| ==> '0' <= s[i] <= '9'
  {
    if s == [] then 0
    else DigitsValue(s[..|s| - 1]) * 10 + (s[|s| - 1] as int - '0' as int)
  }

  /** Reading the digits back gives the number written. */
  lemma {:induction false} DecimalRoundTrip(n: nat)
    ensures DigitsValue(Decimal(n)) == n
  {
    if n >= 10 {
      DecimalRoundTrip(n / 10);
      var r := Decimal(n);
      assert r[..|r| - 1] == Decimal(n / 10);
    }
  }
}
