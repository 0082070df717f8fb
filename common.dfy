/** Small value types and Python-flavoured helpers shared by every other module:
    optional values, list indexing and slicing with Python's negative-index
    rules, substring search, ASCII lower-casing, decimal rendering of
    integers and splitting a string at a separator character. */
module Common {

  datatype Option<T> = None | Some(value: T)

  /** Python's `s[i]`: a negative index counts from the end; anything outside
      `-|s| <= i < |s|` raises IndexError, modelled as `None`. */
  function PyGet<T>(s: seq<T>, i: int): (r: Option<T>)
    ensures r.Some? <==> -|s| <= i < |s|
    ensures 0 <= i < |s| ==> r == Some(s[i])
    ensures -|s| <= i < 0 ==> r == Some(s[|s| + i])
  {
    if 0 <= i < |s| then Some(s[i])
    else if -|s| <= i < 0 then Some(s[|s| + i])
    else None
  }

  /** Python's `s[:stop]` (a missing `stop` keeps the whole list, a negative
      one drops that many elements from the end). */
  function PyPrefix<T>(s: seq<T>, stop: Option<int>): (r: seq<T>)
    ensures |r| <= |s|
    ensures r == s[..|r|]
    ensures stop.None? ==> r == s
    ensures stop.Some? && 0 <= stop.value ==> |r| == if stop.value < |s| then stop.value else |s|
    ensures stop.Some? && stop.value < 0 ==> |r| == if |s| + stop.value < 0 then 0 else |s| + stop.value
  {
    match stop
    case None => s
    case Some(k) =>
      if 0 <= k then (if k < |s| then s[..k] else s)
      else if |s| + k < 0 then []
      else s[..|s| + k]
  }

  predicate StartsWith(s: string, prefix: string)
  {
    |prefix| <= |s| && s[..|prefix|] == prefix
  }

  /** Python's `sub in s` for strings. */
  predicate Contains(s: string, sub: string)
    decreases |s|
  {
    StartsWith(s, sub) || (|s| > 0 && Contains(s[1..], sub))
  }

  /** `sub` occurs in `s` at offset `i`. */
  predicate OccursAt(s: string, sub: string, i: int)
  {
    0 <= i <= |s| - |sub| && s[i..i + |sub|] == sub
  }

  /** `Contains` finds exactly the occurrences at some offset of `s`. */
  lemma {:induction false} ContainsAt(s: string, sub: string)
    ensures Contains(s, sub) <==> exists i :: OccursAt(s, sub, i)
    decreases |s|
  {
    if StartsWith(s, sub) {
      assert OccursAt(s, sub, 0);
    } else if |s| > 0 {
      ContainsAt(s[1..], sub);
      if Contains(s[1..], sub) {
        var i :| OccursAt(s[1..], sub, i);
        assert s[i + 1..i + 1 + |sub|] == s[1..][i..i + |sub|];
        assert OccursAt(s, sub, i + 1);
      }
      if exists i :: OccursAt(s, sub, i) {
        var i :| OccursAt(s, sub, i);
        assert i != 0;
        assert s[1..][i - 1..i - 1 + |sub|] == s[i..i + |sub|];
        assert OccursAt(s[1..], sub, i - 1);
      }
    }
  }

  function LowerChar(c: char): char
  {
    if 'A' <= c <= 'Z' then (c as int + 32) as char else c
  }

  /** Python's `str.lower()` restricted to ASCII letters. */
  function Lower(s: string): (r: string)
    ensures |r| == |s|
    ensures forall i :: 0 <= i < |s| ==> r[i] == LowerChar(s[i])
  {
    seq(|s|, i requires 0 <= i < |s| => LowerChar(s[i]))
  }

  function DigitChar(d: nat): char
    requires d < 10
  {
    ('0' as int + d) as char
  }

  /** Python's `str(n)` for a natural number. */
  function NatToString(n: nat): (r: string)
    ensures |r| >= 1
    ensures forall i :: 0 <= i < |r| ==> '0' <= r[i] <= '9'
  {
    if n < 10 then [DigitChar(n)] else NatToString(n / 10) + [DigitChar(n % 10)]
  }

  /** Python's `str(i)` for any integer. */
  function IntToString(i: int): string
  {
    if i < 0 then "-" + NatToString(-i) else NatToString(i)
  }

  /** Python's `s.split(sep)` for a one-character separator: the pieces
      between the occurrences of `sep`, always at least one. */
  function Split(s: string, sep: char): (r: seq<string>)
    ensures |r| >= 1
    ensures forall k :: 0 <= k < |r| ==> sep !in r[k]
    decreases |s|
  {
    if sep !in s then [s]
    else
      var i := IndexOf(s, sep);
      [s[..i]] + Split(s[i + 1..], sep)
  }

  /** The position of the first `c` in `s`. */
  function IndexOf(s: string, c: char): (i: nat)
    requires c in s
    ensures i < |s| && s[i] == c && c !in s[..i]
  {
    if s[0] == c then 0 else 1 + IndexOf(s[1..], c)
  }

  /** A position holding `c` with no `c` before it is the one `IndexOf` finds. */
  lemma {:induction false} IndexOfFirst(s: string, c: char, j: nat)
    requires j < |s| && s[j] == c && c !in s[..j]
    ensures IndexOf(s, c) == j
  {
    if j > 0 {
      assert s[0] == s[..j][0];
      assert s[1..][..j - 1] == s[1..j];
      assert forall k :: 1 <= k < j ==> s[k] == s[..j][k];
      IndexOfFirst(s[1..], c, j - 1);
    }
  }

  /** Python's `sep.join(parts)`. */
  function Join(parts: seq<string>, sep: char): string
  {
    if |parts| == 0 then ""
    else if |parts| == 1 then parts[0]
    else parts[0] + [sep] + Join(parts[1..], sep)
  }

  /** Splitting and joining again gives back the original string. */
  lemma {:induction false} SplitJoin(s: string, sep: char)
    ensures Join(Split(s, sep), sep) == s
    decreases |s|
  {
    if sep in s {
      var i := IndexOf(s, sep);
      var rest := Split(s[i + 1..], sep);
      SplitJoin(s[i + 1..], sep);
      var parts := [s[..i]] + rest;
      assert Split(s, sep) == parts;
      assert parts[0] == s[..i] && parts[1..] == rest;
      assert Join(parts, sep) == s[..i] + [sep] + Join(rest, sep);
      assert s == s[..i] + [sep] + s[i + 1..];
    }
  }

  /** Joining pieces free of `sep` and splitting again gives back the pieces. */
  lemma {:induction false} JoinSplit(parts: seq<string>, sep: char)
    requires |parts| >= 1
    requires forall k :: 0 <= k < |parts| ==> sep !in parts[k]
    ensures Split(Join(parts, sep), sep) == parts
    decreases |parts|
  {
    if |parts| > 1 {
      var head, tail := parts[0], Join(parts[1..], sep);
      JoinSplit(parts[1..], sep);
      var s := Join(parts, sep);
      var i := |head|;
      assert s == head + [sep] + tail;
      assert s[..i] == head && s[i] == sep && s[i + 1..] == tail;
      IndexOfFirst(s, sep, i);
      assert Split(s, sep) == [head] + Split(tail, sep);
      assert parts == [head] + parts[1..];
    }
  }

  /** A share of a positive whole lies between 0 and 1. */
  lemma Ratio(part: nat, whole: nat)
    requires 0 < whole && part <= whole
    ensures 0.0 <= part as real / whole as real <= 1.0
  {
  }

  /** A quotient of a positive divisor is 0 or 1 exactly when the
      dividend is 0 or the divisor. */
  lemma Quotient(part: real, whole: real, q: real)
    requires 0.0 < whole && q == part / whole
    ensures q == 0.0 <==> part == 0.0
    ensures q == 1.0 <==> part == whole
  {
    assert q * whole == part;
  }

  /** The elements a sequence holds. */
  function Elems<T>(s: seq<T>): set<T>
  {
    set x | x in s
  }

  /** A subset is no larger than its superset. */
  lemma {:induction false} SubsetCard<T>(a: set<T>, b: set<T>)
    requires a <= b
    ensures |a| <= |b|
    decreases |a|
  {
    if a != {} {
      var x :| x in a;
      SubsetCard(a - {x}, b - {x});
    }
  }

  /** Marking more elements as visited never increases the number of
      unvisited elements of `k`. */
  lemma UnvisitedShrinks<T>(k: set<T>, v: set<T>, v2: set<T>)
    requires v <= v2
    ensures |k - v2| <= |k - v|
  {
    SubsetCard(k - v2, k - v);
  }

  /** Marking an unvisited element of `k` strictly reduces the number of
      unvisited elements. */
  lemma VisitingShrinks<T>(k: set<T>, v: set<T>, r: T)
    requires r in k && r !in v
    ensures |k - (v + {r})| < |k - v|
  {
    SubsetCard(k - (v + {r}), (k - v) - {r});
  }
}
