/** The pieces of JavaScript value and string semantics that the Wishline screens
    and services depend on: optional values, truthiness (`||`), nullish
    coalescing (`??`), `String.prototype.trim`, `split`, `join`, `includes`
    and the `\d` character class. */
module Js {

  /** A value that may be `null` or `undefined`. */
  datatype Option<+T> = None | Some(value: T)

  /** A call that returns a value or throws an error with a message. */
  datatype Result<+T> = Ok(value: T) | Thrown(message: string)

  /** A string is truthy when it is present and not empty. */
  predicate Truthy(s: Option<string>) {
    s.Some? && s.value != ""
  }

  /** `s || fallback` for an optional string. */
  function OrElse(s: Option<string>, fallback: string): (r: string)
    ensures Truthy(s) ==> r == s.value
    ensures !Truthy(s) ==> r == fallback
    ensures r == "" <==> !Truthy(s) && fallback == ""
  {
    if Truthy(s) then s.value else fallback
  }

  /** `a || b || c || ...`: the first truthy candidate, if any. */
  function FirstTruthy(xs: seq<Option<string>>): (r: Option<string>)
    ensures r.Some? <==> exists i :: 0 <= i < |xs| && Truthy(xs[i])
    ensures r.Some? ==> Truthy(r) && exists i :: 0 <= i < |xs| && xs[i] == r &&
                                        forall j :: 0 <= j < i ==> !Truthy(xs[j])
  {
    if xs == [] then None
    else if Truthy(xs[0]) then xs[0]
    else
      var r := FirstTruthy(xs[1..]);
      assert forall i :: 1 <= i < |xs| ==> xs[i] == xs[1..][i - 1];
      r
  }

  /** `a ?? b ?? c ?? ...`: the first candidate that is neither null nor
      undefined; an empty string is kept. */
  function FirstPresent(xs: seq<Option<string>>): (r: Option<string>)
    ensures r.Some? <==> exists i :: 0 <= i < |xs| && xs[i].Some?
    ensures r.Some? ==> exists i :: 0 <= i < |xs| && xs[i] == r &&
                          forall j :: 0 <= j < i ==> xs[j].None?
  {
    if xs == [] then None
    else if xs[0].Some? then xs[0]
    else
      var r := FirstPresent(xs[1..]);
      assert forall i :: 1 <= i < |xs| ==> xs[i] == xs[1..][i - 1];
      r
  }

  /** The characters matched by `\s` and removed by `trim()`: the ECMAScript
      WhiteSpace and LineTerminator code points. */
  predicate IsSpace(c: char) {
    var n := c as int;
    (9 <= n <= 13) || n == 0x20 || n == 0xA0 || n == 0x1680 ||
    (0x2000 <= n <= 0x200A) || n == 0x2028 || n == 0x2029 ||
    n == 0x202F || n == 0x205F || n == 0x3000 || n == 0xFEFF
  }

  predicate Blank(s: string) {
    forall i :: 0 <= i < |s| ==> IsSpace(s[i])
  }

  predicate NoSpace(s: string) {
    forall i :: 0 <= i < |s| ==> !IsSpace(s[i])
  }

  /** The end of the run of white space that starts at `i`. */
  function SpaceRunEnd(s: string, i: nat): (n: nat)
    requires i <= |s|
    ensures i <= n <= |s|
    ensures forall k :: i <= k < n ==> IsSpace(s[k])
    ensures n == |s| || !IsSpace(s[n])
    decreases |s| - i
  {
    if i < |s| && IsSpace(s[i]) then SpaceRunEnd(s, i + 1) else i
  }

  /** The start of the run of white space that ends just before `j`. */
  function SpaceRunStart(s: string, j: nat): (n: nat)
    requires j <= |s|
    ensures n <= j
    ensures forall k :: n <= k < j ==> IsSpace(s[k])
    ensures n == 0 || !IsSpace(s[n - 1])
  {
    if j > 0 && IsSpace(s[j - 1]) then SpaceRunStart(s, j - 1) else j
  }

  /** `s.trimStart()`. */
  function TrimStart(s: string): (r: string)
    ensures |r| <= |s| && r == s[|s| - |r|..]
    ensures r == [] || !IsSpace(r[0])
    ensures Blank(s[..|s| - |r|])
  {
    s[SpaceRunEnd(s, 0)..]
  }

  /** `s.trimEnd()`. */
  function TrimEnd(s: string): (r: string)
    ensures |r| <= |s| && r == s[..|r|]
    ensures r == [] || !IsSpace(r[|r| - 1])
    ensures Blank(s[|r|..])
  {
    s[..SpaceRunStart(s, |s|)]
  }

  /** `s.trim()`. */
  function Trim(s: string): string {
    TrimEnd(TrimStart(s))
  }

  /** The trim of `s` is the slice of `s` left when the white space at both
      ends is dropped: it neither starts nor ends with white space, and what
      lies before and after it is blank. */
  lemma TrimIsSlice(s: string)
    ensures var r := Trim(s);
            var i := |s| - |TrimStart(s)|;
            i + |r| <= |s| && r == s[i..i + |r|] && Blank(s[..i]) && Blank(s[i + |r|..]) &&
            (r == [] || (!IsSpace(r[0]) && !IsSpace(r[|r| - 1])))
  {
    var t := TrimStart(s);
    var r := TrimEnd(t);
    var i := |s| - |t|;
    assert r == t[..|r|];
    assert s[i + |r|..] == t[|r|..];
    if r != [] {
      assert r[0] == t[0];
    }
  }

  /** Trimming gives the empty string exactly when the string is all white space. */
  lemma TrimEmptyIffBlank(s: string)
    ensures Trim(s) == "" <==> Blank(s)
  {
    var t := TrimStart(s);
    if Trim(s) == "" {
      assert Blank(t[0..]);
      assert t == [];
      assert s[..|s| - |t|] == s;
    } else if Blank(s) {
      assert false;
    }
  }

  /** A string without white space is its own trim. */
  lemma TrimNoSpace(s: string)
    requires NoSpace(s)
    ensures Trim(s) == s
  {
    assert s == [] || !IsSpace(s[0]);
    assert TrimStart(s) == s;
    assert s == [] || !IsSpace(s[|s| - 1]);
  }

  /** Trimming is idempotent, and the result never starts or ends with white space. */
  lemma TrimIdempotent(s: string)
    ensures Trim(s) == [] || (!IsSpace(Trim(s)[0]) && !IsSpace(Trim(s)[|Trim(s)| - 1]))
    ensures Trim(Trim(s)) == Trim(s)
  {
    var t := TrimStart(s);
    var u := TrimEnd(t);
    if u != [] {
      assert u[0] == t[0];
    }
    assert u == [] || !IsSpace(u[0]);
    assert TrimStart(u) == u;
    assert TrimEnd(u) == u;
  }

  /** `s.includes(t)`: `t` is a prefix of `s` or of one of its suffixes. */
  predicate Contains(s: string, t: string)
    ensures Contains(s, t) ==> |t| <= |s|
    ensures t <= s ==> Contains(s, t)
    decreases |s|
  {
    t <= s || (s != [] && Contains(s[1..], t))
  }

  /** `t` occurs in `s` at position `i`. */
  predicate OccursAt(s: string, t: string, i: int) {
    0 <= i && i + |t| <= |s| && s[i..i + |t|] == t
  }

  /** An occurrence at any position makes `s.includes(t)` hold. */
  lemma {:induction false} OccursAtContains(s: string, t: string, i: int)
    requires OccursAt(s, t, i)
    ensures Contains(s, t)
    decreases i
  {
    if i == 0 {
      assert s[..|t|] == t;
    } else {
      assert s[1..][i - 1..i - 1 + |t|] == s[i..i + |t|];
      OccursAtContains(s[1..], t, i - 1);
    }
  }

  /** When `s.includes(t)` holds, `t` occurs at some position. */
  lemma {:induction false} ContainsOccurs(s: string, t: string) returns (i: int)
    requires Contains(s, t)
    ensures OccursAt(s, t, i)
    decreases |s|
  {
    if t <= s {
      i := 0;
      assert s[..|t|] == t;
    } else {
      var j := ContainsOccurs(s[1..], t);
      i := j + 1;
      assert s[1..][j..j + |t|] == s[i..i + |t|];
    }
  }

  /** `/^\d*$/.test(s)`: only ASCII digits. */
  predicate AllDigits(s: string) {
    forall i :: 0 <= i < |s| ==> '0' <= s[i] <= '9'
  }

  /** The index of the first occurrence of `c` in `s`. */
  function IndexOf(s: string, c: char): (i: nat)
    requires c in s
    ensures i < |s| && s[i] == c && c !in s[..i]
  {
    if s[0] == c then 0
    else
      var i := IndexOf(s[1..], c);
      assert s[..i + 1] == [s[0]] + s[1..][..i];
      i + 1
  }

  /** `parts.join(sep)` with a one-character separator. */
  function Join(parts: seq<string>, sep: char): (r: string)
    requires |parts| >= 1
    ensures parts[0] <= r
    ensures |parts| > 1 ==> sep in r
  {
    if |parts| == 1 then parts[0] else parts[0] + [sep] + Join(parts[1..], sep)
  }

  /** `s.split(sep)` with a one-character separator: the pieces between
      separators, always at least one, none containing the separator. */
  function Split(s: string, sep: char): (parts: seq<string>)
    ensures |parts| >= 1
    ensures forall k :: 0 <= k < |parts| ==> sep !in parts[k]
    decreases |s|
  {
    if sep !in s then [s]
    else
      var i := IndexOf(s, sep);
      [s[..i]] + Split(s[i + 1..], sep)
  }

  /** When the separator occurs, the second piece is the first piece of what
      follows the first separator. */
  lemma SplitSecond(s: string, sep: char)
    requires sep in s
    ensures |Split(s, sep)| > 1
    ensures var n := |Split(s, sep)[0]|;
            n < |s| && s[n] == sep && Split(s, sep)[1] == Split(s[n + 1..], sep)[0]
  {
    SplitHead(s, sep);
    var parts := Split(s, sep);
    var n := |parts[0]|;
    assert parts[1] == parts[1..][0];
  }

  /** Joining the pieces of a split gives the string back. */
  lemma {:induction false} JoinSplit(s: string, sep: char)
    ensures Join(Split(s, sep), sep) == s
    decreases |s|
  {
    if sep in s {
      var i := IndexOf(s, sep);
      var rest := Split(s[i + 1..], sep);
      var parts := [s[..i]] + rest;
      assert Split(s, sep) == parts;
      assert parts[0] == s[..i] && parts[1..] == rest;
      JoinSplit(s[i + 1..], sep);
      assert Join(parts, sep) == s[..i] + [sep] + s[i + 1..];
      assert s == s[..i] + [sep] + s[i + 1..];
    }
  }

  /** An occurrence with no earlier one is the first. */
  lemma IndexOfFirst(s: string, c: char, k: int)
    requires 0 <= k < |s| && s[k] == c
    requires forall i :: 0 <= i < k ==> s[i] != c
    ensures c in s && IndexOf(s, c) == k
  {
    assert s[k] in s;
    var at := IndexOf(s, c);
    assert forall i :: 0 <= i < at ==> s[i] == s[..at][i] != c;
  }

  /** In `a + [c] + b`, with `c` absent from `a`, the first `c` follows `a`. */
  lemma IndexOfAfterPrefix(a: string, c: char, b: string)
    requires c !in a
    ensures c in a + [c] + b && IndexOf(a + [c] + b, c) == |a|
  {
    var s := a + [c] + b;
    assert forall k :: 0 <= k < |a| ==> s[k] == a[k] != c;
    IndexOfFirst(s, c, |a|);
  }

  /** Splitting at the first separator: the text before it is the first
      piece, and the rest are the pieces of the text after it. */
  lemma SplitAt(a: string, sep: char, b: string)
    requires sep !in a
    ensures Split(a + [sep] + b, sep) == [a] + Split(b, sep)
  {
    var s := a + [sep] + b;
    IndexOfAfterPrefix(a, sep, b);
    assert s[..|a|] == a;
    assert s[|a| + 1..] == b;
  }

  /** Splitting a join of separator-free pieces gives back the pieces. */
  lemma {:induction false} SplitJoin(parts: seq<string>, sep: char)
    requires |parts| >= 1
    requires forall k :: 0 <= k < |parts| ==> sep !in parts[k]
    ensures Split(Join(parts, sep), sep) == parts
    decreases |parts|
  {
    if |parts| > 1 {
      var rest := parts[1..];
      assert forall k :: 0 <= k < |rest| ==> sep !in rest[k] by {
        assert forall k :: 0 <= k < |rest| ==> rest[k] == parts[k + 1];
      }
      SplitJoin(rest, sep);
      SplitAt(parts[0], sep, Join(rest, sep));
      assert parts == [parts[0]] + rest;
    }
  }

  /** The first piece of `s.split(sep)` is the longest prefix of `s` without
      the separator; when `s` holds a separator, the other pieces are those of
      the text after the first one. */
  lemma SplitHead(s: string, sep: char)
    ensures var p := Split(s, sep)[0];
            p <= s && sep !in p && (|p| == |s| || s[|p|] == sep)
    ensures sep !in s ==> Split(s, sep) == [s]
    ensures sep in s ==>
              |Split(s, sep)| > 1 && Split(s, sep)[1..] == Split(s[|Split(s, sep)[0]| + 1..], sep)
  {
    if sep in s {
      var i := IndexOf(s, sep);
      assert Split(s, sep) == [s[..i]] + Split(s[i + 1..], sep);
    }
  }

  /** A character absent from `s` is absent from every piece of its split. */
  lemma {:induction false} SplitPiecesAvoid(s: string, sep: char, c: char)
    requires c !in s
    ensures forall k :: 0 <= k < |Split(s, sep)| ==> c !in Split(s, sep)[k]
    decreases |s|
  {
    if sep in s {
      var i := IndexOf(s, sep);
      var head, tail := s[..i], s[i + 1..];
      assert forall j :: 0 <= j < |head| ==> head[j] == s[j];
      assert forall j :: 0 <= j < |tail| ==> tail[j] == s[i + 1 + j];
      SplitPiecesAvoid(s[i + 1..], sep, c);
    }
  }

  /** A string lacking one of the characters of `t` does not contain `t`. */
  lemma {:induction false} NotContainsMissingChar(s: string, t: string, c: char)
    requires c in t && c !in s
    ensures !Contains(s, t)
    decreases |s|
  {
    var j :| 0 <= j < |t| && t[j] == c;
    assert forall k :: 0 <= k < |s| ==> s[k] != c;
    assert !(t <= s);
    if s != [] {
      assert forall k :: 0 <= k < |s| - 1 ==> s[1..][k] == s[k + 1];
      NotContainsMissingChar(s[1..], t, c);
    }
  }



  /** `xs.filter(keep).map(f)`. */
  function FilterMap<T, U>(xs: seq<T>, keep: T -> bool, f: T -> U): (r: seq<U>)
    ensures |r| <= |xs|
  {
    if xs == [] then []
    else
      var rest := FilterMap(xs[1..], keep, f);
      if keep(xs[0]) then [f(xs[0])] + rest else rest
  }

  /** Filtering keeps the order: it works piece by piece over a concatenation. */
  lemma {:induction false} FilterMapAppend<T, U>(a: seq<T>, b: seq<T>, keep: T -> bool, f: T -> U)
    ensures FilterMap(a + b, keep, f) == FilterMap(a, keep, f) + FilterMap(b, keep, f)
  {
    if a == [] {
      assert a + b == b;
    } else {
      assert (a + b)[1..] == a[1..] + b;
      FilterMapAppend(a[1..], b, keep, f);
    }
  }

  /** Every kept element appears, mapped. */
  lemma {:induction false} FilterMapKeeps<T, U>(xs: seq<T>, keep: T -> bool, f: T -> U, i: int)
    requires 0 <= i < |xs| && keep(xs[i])
    ensures f(xs[i]) in FilterMap(xs, keep, f)
  {
    if i > 0 {
      FilterMapKeeps(xs[1..], keep, f, i - 1);
    }
  }

  /** Every element of the result is a kept element, mapped: `i` is where it
      came from. */
  lemma {:induction false} FilterMapSource<T, U>(xs: seq<T>, keep: T -> bool, f: T -> U, k: int) returns (i: int)
    requires 0 <= k < |FilterMap(xs, keep, f)|
    ensures 0 <= i < |xs| && keep(xs[i]) && FilterMap(xs, keep, f)[k] == f(xs[i])
  {
    if keep(xs[0]) && k == 0 {
      i := 0;
    } else {
      var j := FilterMapSource(xs[1..], keep, f, if keep(xs[0]) then k - 1 else k);
      i := j + 1;
      assert xs[1..][j] == xs[i];
    }
  }

  /** Nothing is dropped when every element is kept, and nothing is left when
      none is. */
  lemma {:induction false} FilterMapExtremes<T, U>(xs: seq<T>, keep: T -> bool, f: T -> U)
    ensures (forall k :: 0 <= k < |xs| ==> keep(xs[k])) ==> |FilterMap(xs, keep, f)| == |xs|
    ensures (forall k :: 0 <= k < |xs| ==> !keep(xs[k])) ==> FilterMap(xs, keep, f) == []
  {
    if xs != [] {
      FilterMapExtremes(xs[1..], keep, f);
      assert forall k :: 1 <= k < |xs| ==> xs[k] == xs[1..][k - 1];
    }
  }

  /** With a map that is idempotent and keeps what it maps kept, filtering
      twice is filtering once. */
  lemma {:induction false} FilterMapIdempotent<T>(xs: seq<T>, keep: T -> bool, f: T -> T)
    requires forall x :: keep(x) ==> keep(f(x)) && f(f(x)) == f(x)
    ensures FilterMap(FilterMap(xs, keep, f), keep, f) == FilterMap(xs, keep, f)
  {
    if xs != [] {
      var rest := FilterMap(xs[1..], keep, f);
      FilterMapIdempotent(xs[1..], keep, f);
      if keep(xs[0]) {
        FilterMapAppend([f(xs[0])], rest, keep, f);
        assert FilterMap([f(xs[0])], keep, f) == [f(xs[0])];
      }
    }
  }
}
