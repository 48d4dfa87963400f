/** The string helpers every other part is built on (src/helpers.cpp).

    Each loop of the source is a method proved against a specification function;
    the laws of splitting, joining and replacing are lemmas about those functions. */
module Helpers {

  // ----- searching -----

  predicate OccursAt(s: string, pat: string, i: nat) {
    i + |pat| <= |s| && s[i..i + |pat|] == pat
  }

  predicate Contains(s: string, pat: string) {
    exists i: nat :: i <= |s| && OccursAt(s, pat, i)
  }

  const NPOS := -1

  /** `std::string::find`: the first occurrence at or after `from`. */
  function Find(s: string, pat: string, from: nat): (r: int)
    requires from <= |s|
    ensures r == NPOS || from <= r <= |s| - |pat|
    decreases |s| - from
  {
    if OccursAt(s, pat, from) then from
    else if from == |s| then NPOS
    else Find(s, pat, from + 1)
  }

  lemma {:induction false} FindIsFirst(s: string, pat: string, from: nat)
    requires from <= |s|
    ensures var r := Find(s, pat, from);
            && (r != NPOS ==> OccursAt(s, pat, r))
            && forall k: nat :: from <= k && (r == NPOS || k < r) ==> !OccursAt(s, pat, k)
    decreases |s| - from
  {
    if !OccursAt(s, pat, from) && from < |s| {
      FindIsFirst(s, pat, from + 1);
    }
  }

  lemma OccursInSuffix(s: string, pat: string, from: nat, m: nat)
    requires from <= |s|
    ensures OccursAt(s[from..], pat, m) <==> OccursAt(s, pat, from + m)
  {
    if m + |pat| <= |s| - from {
      assert s[from..][m..m + |pat|] == s[from + m..from + m + |pat|];
    }
  }

  /** Searching a suffix is searching the string from a later index. */
  lemma {:induction false} FindInSuffix(s: string, pat: string, from: nat, k: nat)
    requires from + k <= |s|
    ensures var i := Find(s[from..], pat, k);
            Find(s, pat, from + k) == if i == NPOS then NPOS else from + i
    decreases |s| - from - k
  {
    OccursInSuffix(s, pat, from, k);
    if !OccursAt(s, pat, from + k) && from + k < |s| {
      FindInSuffix(s, pat, from, k + 1);
    }
  }

  // ----- split, join, replace -----

  /** The index just past a match at `i`. */
  function Past(i: nat, d: string): nat {
    i + |d|
  }

  /** The pieces of `s` from index `from` on, between non-overlapping occurrences of a
      non-empty delimiter. */
  function Pieces(s: string, d: string, from: nat): (r: seq<string>)
    requires d != "" && from <= |s|
    decreases |s| - from
  {
    var i := Find(s, d, from);
    if i == NPOS then [s[from..]] else [s[from..i]] + Pieces(s, d, Past(i, d))
  }

  function Split(s: string, d: string): seq<string> {
    if s == "" then []
    else if d == "" || |s| < |d| then [s]
    else Pieces(s, d, 0)
  }

  function Join(v: seq<string>, sep: string): string {
    if |v| == 0 then ""
    else if |v| == 1 then v[0]
    else v[0] + sep + Join(v[1..], sep)
  }

  lemma Regroup<T>(a: seq<T>, b: seq<T>, c: seq<T>)
    ensures a + b + c == a + (b + c)
  {
  }

  lemma Regroup4<T>(a: seq<T>, b: seq<T>, c: seq<T>, d: seq<T>)
    ensures a + b + c + d == a + (b + (c + d))
  {
    Regroup(a + b, c, d);
    Regroup(a, b, c + d);
  }

  method StringSplit(input: string, delimiter: string) returns (splitted: seq<string>)
    ensures splitted == Split(input, delimiter)
  {
    if input == "" {
      return [];
    }
    if delimiter == "" || |input| < |delimiter| {
      return [input];
    }
    splitted := [];
    var findStart := 0;
    ghost var target := Pieces(input, delimiter, 0);
    while true
      invariant findStart <= |input|
      invariant splitted + Pieces(input, delimiter, findStart) == target
      decreases |input| - findStart
    {
      var index := Find(input, delimiter, findStart);
      if index == NPOS {
        splitted := splitted + [input[findStart..]];
        break;
      }
      Regroup(splitted, [input[findStart..index]], Pieces(input, delimiter, Past(index, delimiter)));
      splitted := splitted + [input[findStart..index]];
      findStart := Past(index, delimiter);
    }
  }

  lemma {:induction false} JoinSnoc(v: seq<string>, x: string, sep: string)
    requires |v| > 0
    ensures Join(v + [x], sep) == Join(v, sep) + sep + x
  {
    if |v| == 1 {
      assert (v + [x])[1..] == [x];
    } else {
      JoinSnoc(v[1..], x, sep);
      assert (v + [x])[1..] == v[1..] + [x];
    }
  }

  method StringJoin(input: seq<string>, separator: string) returns (joined: string)
    ensures joined == Join(input, separator)
  {
    if |input| == 0 {
      return "";
    }
    joined := "";
    var i := 0;
    while i < |input| - 1
      invariant 0 <= i < |input|
      invariant joined + input[i] == Join(input[..i + 1], separator)
    {
      joined := joined + input[i];
      joined := joined + separator;
      i := i + 1;
      JoinSnoc(input[..i], input[i], separator);
      assert input[..i] + [input[i]] == input[..i + 1];
    }
    joined := joined + input[|input| - 1];
    assert input[..|input|] == input;
  }

  lemma JoinCons(head: string, rest: seq<string>, b: string)
    requires |rest| > 0
    ensures Join([head] + rest, b) == head + b + Join(rest, b)
  {
    assert ([head] + rest)[1..] == rest;
  }

  lemma PiecesUnfold(s: string, d: string, from: nat, i: nat, piece: string, rest: seq<string>)
    requires d != "" && from <= |s|
    requires i == Find(s, d, from)
    requires piece == s[from..i]
    requires rest == Pieces(s, d, Past(i, d))
    ensures Pieces(s, d, from) == [piece] + rest
  {
  }

  lemma PiecesNotEmpty(s: string, d: string, from: nat)
    requires d != "" && from <= |s|
    ensures |Pieces(s, d, from)| > 0
  {
  }

  lemma {:induction false} JoinPieces(s: string, d: string, from: nat)
    requires d != "" && from <= |s|
    ensures Replaced(s, d, d, from) == s[from..]
    decreases |s| - from
  {
    var i := Find(s, d, from);
    ReplacedUnfold(s, d, d, from);
    if i != NPOS {
      FindIsFirst(s, d, from);
      JoinPieces(s, d, Past(i, d));
      SliceAtMatch(s, d, from, i);
    }
  }

  lemma SliceAtMatch(s: string, d: string, from: nat, i: nat)
    requires from <= i && OccursAt(s, d, i)
    ensures s[from..] == s[from..i] + d + s[i + |d|..]
  {
    assert s[from..] == s[from..i] + s[i..i + |d|] + s[i + |d|..];
  }

  /** Joining what was split with the same delimiter restores the string,
      through every early exit. */
  lemma JoinSplit(s: string, a: string)
    ensures Join(Split(s, a), a) == s
  {
    if s != "" && a != "" && |a| <= |s| {
      JoinPieces(s, a, 0);
    }
  }

  /** What is left to append while replacing from an index on. */
  function Replaced(s: string, search: string, replace: string, from: nat): string
    requires search != "" && from <= |s|
  {
    Join(Pieces(s, search, from), replace)
  }

  lemma ReplacedUnfold(s: string, search: string, replace: string, from: nat)
    requires search != "" && from <= |s|
    ensures var i := Find(s, search, from);
            Replaced(s, search, replace, from) ==
            if i == NPOS then s[from..]
            else s[from..i] + replace + Replaced(s, search, replace, Past(i, search))
  {
    var i := Find(s, search, from);
    if i != NPOS {
      var piece, rest := s[from..i], Pieces(s, search, Past(i, search));
      PiecesNotEmpty(s, search, Past(i, search));
      PiecesUnfold(s, search, from, i, piece, rest);
      JoinCons(piece, rest, replace);
    }
  }

  /** The scanning loop owes `target` exactly what is left from `from` on. */
  ghost predicate Remaining(acc: string, s: string, search: string, replace: string, from: nat, target: string)
    requires search != "" && from <= |s|
  {
    acc + Replaced(s, search, replace, from) == target
  }

  lemma RemainingInitially(s: string, search: string, replace: string)
    requires s != "" && search != "" && |search| <= |s|
    ensures Remaining("", s, search, replace, 0, Join(Split(s, search), replace))
  {
    assert "" + Replaced(s, search, replace, 0) == Replaced(s, search, replace, 0);
  }

  lemma ReplaceRound(acc: string, s: string, search: string, replace: string, from: nat, i: nat, next: nat,
                     target: string)
    requires search != "" && from <= |s|
    requires i == Find(s, search, from) && next == Past(i, search)
    requires Remaining(acc, s, search, replace, from, target)
    ensures Remaining(acc + s[from..i] + replace, s, search, replace, next, target)
  {
    ReplacedUnfold(s, search, replace, from);
    var piece, rest := s[from..i], Replaced(s, search, replace, next);
    Regroup(acc + piece, replace, rest);
    Regroup(piece, replace, rest);
    Regroup(acc, piece, replace + rest);
  }

  /** Replacing is splitting at the search text and joining with the replacement. */
  method StringReplace(input: string, search: string, replace: string) returns (replaced: string)
    ensures replaced == Join(Split(input, search), replace)
  {
    if input == "" || search == "" || |input| < |search| || search == replace {
      JoinSplit(input, search);
      return input;
    }
    replaced := "";
    var findStart := 0;
    ghost var target := Join(Split(input, search), replace);
    RemainingInitially(input, search, replace);
    while true
      invariant findStart <= |input|
      invariant Remaining(replaced, input, search, replace, findStart, target)
      decreases |input| - findStart
    {
      var found := Find(input, search, findStart);
      if found == NPOS {
        ReplacedUnfold(input, search, replace, findStart);
        replaced := replaced + input[findStart..];
        return;
      }
      var next := Past(found, search);
      ReplaceRound(replaced, input, search, replace, findStart, found, next, target);
      replaced := replaced + input[findStart..found];
      replaced := replaced + replace;
      findStart := next;
    }
  }

  lemma {:induction false} PiecesAreFree(s: string, d: string, from: nat)
    requires d != "" && from <= |s|
    ensures forall k :: 0 <= k < |Pieces(s, d, from)| ==> !Contains(Pieces(s, d, from)[k], d)
    decreases |s| - from
  {
    var i := Find(s, d, from);
    FindIsFirst(s, d, from);
    var piece := if i == NPOS then s[from..] else s[from..i];
    forall j: nat | OccursAt(piece, d, j)
      ensures false
    {
      assert piece[j..j + |d|] == s[from + j..from + j + |d|];
      assert OccursAt(s, d, from + j);
    }
    if i != NPOS {
      PiecesAreFree(s, d, Past(i, d));
    }
  }

  /** No piece contains the delimiter. */
  lemma SplitIsFree(s: string, d: string)
    requires d != ""
    ensures forall k :: 0 <= k < |Split(s, d)| ==> !Contains(Split(s, d)[k], d)
  {
    PiecesAreFree(s, d, 0);
  }

  lemma SliceOfSuffix(s: string, from: nat, a: nat, b: nat)
    requires a <= b && from + b <= |s|
    ensures s[from..][a..b] == s[from + a..from + b]
    ensures s[from..][a..] == s[from + a..]
  {
  }

  lemma SamePieces(t: string, k: nat, i: nat, s: string, g: nat, j: nat, d: string)
    requires d != "" && k <= |t| && g <= |s|
    requires i == Find(t, d, k) && j == Find(s, d, g)
    requires t[k..i] == s[g..j]
    requires Pieces(t, d, Past(i, d)) == Pieces(s, d, Past(j, d))
    ensures Pieces(t, d, k) == Pieces(s, d, g)
  {
  }

  /** Splitting from an index is splitting the suffix. */
  lemma {:induction false} PiecesOfSuffix(s: string, d: string, from: nat, k: nat)
    requires d != "" && from + k <= |s|
    ensures Pieces(s[from..], d, k) == Pieces(s, d, from + k)
    decreases |s| - from - k
  {
    FindInSuffix(s, d, from, k);
    var i := Find(s[from..], d, k);
    if i == NPOS {
      SliceOfSuffix(s, from, k, k);
    } else {
      SliceOfSuffix(s, from, k, i);
      assert from + Past(i, d) == Past(from + i, d);
      PiecesOfSuffix(s, d, from, Past(i, d));
      SamePieces(s[from..], k, i, s, from + k, from + i, d);
    }
  }

  /** The first occurrence of a character, found by looking at characters. */
  lemma FirstPiece(head: string, tail: string, c: char)
    requires c !in head
    requires tail == "" || tail[0] == c
    ensures Find(head + tail, [c], 0) == if tail == "" then NPOS else |head|
  {
    var s := head + tail;
    var i := Find(s, [c], 0);
    FindIsFirst(s, [c], 0);
    if i != NPOS {
      assert s[i..i + 1][0] == c;
      assert s[i] == c;
    }
    if tail != "" {
      assert s[|head|..|head| + 1] == [c];
      assert OccursAt(s, [c], |head|);
    }
  }

  /** Splitting off the part before the first delimiter character. */
  lemma PiecesOfCons(head: string, rest: string, c: char)
    requires c !in head
    ensures Pieces(head + [c] + rest, [c], 0) == [head] + Pieces(rest, [c], 0)
  {
    var s := head + [c] + rest;
    assert s == head + ([c] + rest);
    FirstPiece(head, [c] + rest, c);
    PiecesOfSuffix(s, [c], |head| + 1, 0);
    assert s[|head| + 1..] == rest;
    assert s[0..|head|] == head;
  }

  lemma {:induction false} PiecesOfJoin(v: seq<string>, c: char)
    requires |v| > 0
    requires forall k :: 0 <= k < |v| ==> c !in v[k]
    ensures Pieces(Join(v, [c]), [c], 0) == v
  {
    if |v| == 1 {
      FirstPiece(v[0], "", c);
      assert v[0] + "" == v[0] && v[0][0..] == v[0];
    } else {
      PiecesOfCons(v[0], Join(v[1..], [c]), c);
      PiecesOfJoin(v[1..], c);
    }
  }

  /** For a one-character delimiter, splitting a join of delimiter-free pieces gives the
      pieces back, with exactly one exception: the list holding one empty string. */
  lemma SplitJoin(v: seq<string>, c: char)
    requires forall k :: 0 <= k < |v| ==> c !in v[k]
    ensures Split(Join(v, [c]), [c]) == v <==> v != [""]
  {
    if |v| > 0 {
      PiecesOfJoin(v, c);
    }
  }

  lemma ContainsChar(s: string, c: char)
    ensures Contains(s, [c]) <==> c in s
  {
    if c in s {
      var i: nat :| i < |s| && s[i] == c;
      assert s[i..i + 1] == [c];
      assert OccursAt(s, [c], i);
    }
    if Contains(s, [c]) {
      var i: nat :| i <= |s| && OccursAt(s, [c], i);
      assert s[i..i + 1][0] == c;
    }
  }

  /** There is one piece exactly when the delimiter does not occur. */
  lemma SplitSingle(s: string, c: char)
    requires s != ""
    ensures |Split(s, [c])| == 1 <==> c !in s
    ensures c !in s ==> Split(s, [c]) == [s]
  {
    var i := Find(s, [c], 0);
    FindIsFirst(s, [c], 0);
    ContainsChar(s, c);
    if i != NPOS {
      assert OccursAt(s, [c], i);
      PiecesNotEmpty(s, [c], Past(i, [c]));
    }
  }

  // ----- upper case and prefixes -----

  function UpperChar(c: char): char {
    if c < 'a' || c > 'z' then c else (c as int - 32) as char
  }

  function Upper(s: string): string {
    seq(|s|, i requires 0 <= i < |s| => UpperChar(s[i]))
  }

  predicate IsLower(c: char) {
    'a' <= c <= 'z'
  }

  /** The two are one ASCII letter, the second in upper case. */
  predicate IsUpperOf(c: char, u: char) {
    'A' <= u <= 'Z' && c as int == u as int + 32
  }

  /** Every character is in upper case or no letter afterwards, and the same as before or the
      capital of what it was; a text without small letters stays as it is. */
  lemma UpperIs(s: string)
    ensures var u := Upper(s);
            && |u| == |s|
            && (forall i :: 0 <= i < |s| ==>
                  !IsLower(u[i]) && (if IsLower(s[i]) then IsUpperOf(s[i], u[i]) else u[i] == s[i]))
            && ((forall i :: 0 <= i < |s| ==> !IsLower(s[i])) ==> u == s)
  {
  }

  method StringToUppercase(input: string) returns (upper: string)
    ensures upper == Upper(input)
  {
    upper := input;
    var i := 0;
    while i < |upper|
      invariant 0 <= i <= |upper| == |input|
      invariant forall k :: 0 <= k < i ==> upper[k] == UpperChar(input[k])
      invariant forall k :: i <= k < |input| ==> upper[k] == input[k]
    {
      if !(upper[i] < 'a' || upper[i] > 'z') {
        upper := upper[i := (upper[i] as int - 32) as char];
      }
      i := i + 1;
    }
  }

  /** Strict: the string must be longer than the prefix. */
  predicate StartsWith(s: string, prefix: string) {
    |s| > |prefix| && s[..|prefix|] == prefix
  }

  // ----- decimal text (`std::to_string` and `std::stoll`) -----

  function Digit(n: nat): char
    requires n < 10
  {
    ('0' as int + n) as char
  }

  function Decimal(n: nat): (r: string)
    ensures |r| > 0
  {
    if n < 10 then [Digit(n)] else Decimal(n / 10) + [Digit(n % 10)]
  }

  predicate IsDecimal(s: string) {
    |s| > 0 && forall k :: 0 <= k < |s| ==> '0' <= s[k] <= '9'
  }

  function ParseDecimal(s: string): nat
    requires forall k :: 0 <= k < |s| ==> '0' <= s[k] <= '9'
  {
    if s == "" then 0
    else 10 * ParseDecimal(s[..|s| - 1]) + (s[|s| - 1] as int - '0' as int)
  }

  lemma {:induction false} DecimalRoundTrip(n: nat)
    ensures IsDecimal(Decimal(n)) && ParseDecimal(Decimal(n)) == n
  {
    if n < 10 {
      assert Decimal(n)[..0] == "";
    } else {
      DecimalRoundTrip(n / 10);
      assert Decimal(n)[..|Decimal(n)| - 1] == Decimal(n / 10);
    }
  }
}
