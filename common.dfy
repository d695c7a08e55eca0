/** String and sequence primitives that the backend and the frontend share:
    the `/\D/g` digit filter, ASCII lower-casing, `includes`, `split`,
    `replace` of a first occurrence, `join`, `trim`, and `filter`. */
module Common {

  datatype Option<+T> = None | Some(value: T)

  /** JavaScript truthiness of an optional string: `undefined`, `null` and `''` are falsy. */
  predicate Truthy(s: Option<string>) {
    s.Some? && s.value != ""
  }

  /** An HTTP reply: its status, the machine-readable `code` of its body ("" when
      the body has none) and its `message`. */
  datatype Reply = Reply(status: int, code: string, message: string)

  const Ok := 200
  const Created := 201
  const BadRequest := 400
  const Unauthorized := 401
  const Conflict := 409
  const InternalServerError := 500

  // ---------------------------------------------------------------------------
  // Digits

  predicate IsDigit(c: char) {
    '0' <= c <= '9'
  }

  predicate AllDigits(s: string) {
    forall i :: 0 <= i < |s| ==> IsDigit(s[i])
  }

  /** `s.replace(/\D/g, '')`: the digits of `s`, in order. */
  function Digits(s: string): (r: string)
    ensures AllDigits(r)
    ensures |r| <= |s|
  {
    if s == [] then []
    else (if IsDigit(s[0]) then [s[0]] else []) + Digits(s[1..])
  }

  lemma {:induction false} DigitsAppend(a: string, b: string)
    ensures Digits(a + b) == Digits(a) + Digits(b)
  {
    if a == [] {
      assert a + b == b;
    } else {
      assert (a + b)[1..] == a[1..] + b;
      DigitsAppend(a[1..], b);
    }
  }

  lemma {:induction false} DigitsOfAllDigits(s: string)
    requires AllDigits(s)
    ensures Digits(s) == s
  {
    if s != [] {
      DigitsOfAllDigits(s[1..]);
    }
  }

  lemma DigitsOfNoDigits(s: string)
    requires forall i :: 0 <= i < |s| ==> !IsDigit(s[i])
    ensures Digits(s) == ""
  {
    if s != [] {
      DigitsOfNoDigits(s[1..]);
    }
  }

  /** The digits of a `(a) b-c` mask are those of its three parts. */
  lemma {:induction false} DigitsOfMasked(a: string, b: string, c: string)
    requires AllDigits(a) && AllDigits(b) && AllDigits(c)
    ensures Digits("(" + a + ") " + b + "-" + c) == a + b + c
  {
    var s3 := "-" + c;
    assert Digits(s3) == c by { DigitsOfAllDigits(c); DigitsAppend("-", c); }
    var s2 := b + s3;
    assert Digits(s2) == b + c by { DigitsOfAllDigits(b); DigitsAppend(b, s3); }
    var s1 := ") " + s2;
    assert Digits(s1) == b + c by { DigitsAppend(") ", s2); assert Digits(") ") == ""; }
    var s0 := a + s1;
    assert Digits(s0) == a + (b + c) by { DigitsOfAllDigits(a); DigitsAppend(a, s1); }
    var s := "(" + s0;
    assert Digits(s) == a + (b + c) by { DigitsAppend("(", s0); assert Digits("(") == ""; }
    assert "(" + a + ") " + b + "-" + c == s;
    assert a + (b + c) == a + b + c;
  }

  /** The digits of a `(a) b` mask are those of its two parts. */
  lemma {:induction false} DigitsOfShortMask(a: string, b: string)
    requires AllDigits(a) && AllDigits(b)
    ensures Digits("(" + a + ") " + b) == a + b
  {
    var s1 := ") " + b;
    assert Digits(s1) == b by { DigitsOfAllDigits(b); DigitsAppend(") ", b); assert Digits(") ") == ""; }
    var s0 := a + s1;
    assert Digits(s0) == a + b by { DigitsOfAllDigits(a); DigitsAppend(a, s1); }
    assert Digits("(" + s0) == a + b by { DigitsAppend("(", s0); assert Digits("(") == ""; }
    assert "(" + a + ") " + b == "(" + s0;
  }

  /** The numeric value of a string of decimal digits (`parseInt` on such a string). */
  function DigitsValue(s: string): (v: nat)
    requires AllDigits(s)
  {
    if s == [] then 0
    else DigitsValue(s[..|s| - 1]) * 10 + (s[|s| - 1] as int - '0' as int)
  }

  // ---------------------------------------------------------------------------
  // Case and search

  function LowerChar(c: char): (r: char) {
    if 'A' <= c <= 'Z' then (c as int - 'A' as int + 'a' as int) as char else c
  }

  /** `toLowerCase()`, restricted to the ASCII letters. */
  function Lower(s: string): (r: string)
    ensures |r| == |s|
    ensures forall i :: 0 <= i < |s| ==> r[i] == LowerChar(s[i])
  {
    seq(|s|, i requires 0 <= i < |s| => LowerChar(s[i]))
  }

  /** `hay.includes(needle)`. */
  predicate Contains(hay: string, needle: string) {
    exists i | 0 <= i <= |hay| - |needle| :: needle <= hay[i..]
  }

  lemma ContainsEmpty(hay: string)
    ensures Contains(hay, "")
  {
    assert "" <= hay[0..];
  }

  // ---------------------------------------------------------------------------
  // split, replace, join, trim

  /** `s.split(sep)` for a one-character separator: never empty. */
  function Split(s: string, sep: char): (parts: seq<string>)
    ensures |parts| >= 1
  {
    if s == [] then [""]
    else if s[0] == sep then [""] + Split(s[1..], sep)
    else
      var rest := Split(s[1..], sep);
      [[s[0]] + rest[0]] + rest[1..]
  }

  lemma {:induction false} SplitNoSeparator(a: string, sep: char)
    requires sep !in a
    ensures Split(a, sep) == [a]
  {
    if a != [] {
      SplitNoSeparator(a[1..], sep);
      assert [a[0]] + a[1..] == a;
    }
  }

  lemma {:induction false} SplitAtFirstSeparator(a: string, sep: char, b: string)
    requires sep !in a
    ensures Split(a + [sep] + b, sep) == [a] + Split(b, sep)
  {
    if a == [] {
      assert a + [sep] + b == [sep] + b;
      assert ([sep] + b)[1..] == b;
    } else {
      assert (a + [sep] + b)[1..] == a[1..] + [sep] + b;
      SplitAtFirstSeparator(a[1..], sep, b);
      assert [a[0]] + a[1..] == a;
    }
  }

  /** Splitting three separator-free fields joined by `sep` gives them back. */
  lemma SplitThree(a: string, b: string, c: string, sep: char)
    requires sep !in a && sep !in b && sep !in c
    ensures Split(a + [sep] + b + [sep] + c, sep) == [a, b, c]
  {
    assert a + [sep] + b + [sep] + c == a + [sep] + (b + [sep] + c);
    SplitAtFirstSeparator(a, sep, b + [sep] + c);
    SplitAtFirstSeparator(b, sep, c);
    SplitNoSeparator(c, sep);
  }

  /** Array destructuring `const [x, y, z] = parts`: a missing element is
      `undefined`, which a template literal prints as the text "undefined". */
  function Part(parts: seq<string>, i: nat): (r: string) {
    if i < |parts| then parts[i] else "undefined"
  }

  /** `s.replace(pat, rep)` with a string pattern: only the first occurrence is replaced. */
  function ReplaceFirst(s: string, pat: string, rep: string): (r: string)
  {
    if |s| < |pat| then s
    else if s[..|pat|] == pat then rep + s[|pat|..]
    else [s[0]] + ReplaceFirst(s[1..], pat, rep)
  }

  lemma ContainsOfTail(s: string, pat: string)
    requires s != []
    ensures Contains(s[1..], pat) ==> Contains(s, pat)
  {
    if Contains(s[1..], pat) {
      var i :| 0 <= i <= |s[1..]| - |pat| && pat <= s[1..][i..];
      assert s[1..][i..] == s[i + 1..];
    }
  }

  lemma {:induction false} ReplaceFirstAbsent(s: string, pat: string, rep: string)
    requires !Contains(s, pat)
    ensures ReplaceFirst(s, pat, rep) == s
  {
    if |s| >= |pat| {
      assert s[..|pat|] != pat by {
        assert s[0..] == s;
      }
      ContainsOfTail(s, pat);
      ReplaceFirstAbsent(s[1..], pat, rep);
    }
  }

  /** `xs.join(sep)`. */
  function Join(xs: seq<string>, sep: string): (r: string)
  {
    if xs == [] then ""
    else if |xs| == 1 then xs[0]
    else xs[0] + sep + Join(xs[1..], sep)
  }

  /** The ASCII and Latin-1 white space that `String.prototype.trim` removes. */
  predicate IsSpace(c: char) {
    c == ' ' || c == '\t' || c == '\n' || c == '\r' || c == '\U{B}' || c == '\U{C}'
    || c == '\U{A0}' || c == '\U{FEFF}'
  }

  function TrimStart(s: string): (r: string)
    ensures |r| <= |s|
    ensures r == [] || !IsSpace(r[0])
    ensures r == s[|s| - |r|..]
  {
    if s != [] && IsSpace(s[0]) then TrimStart(s[1..]) else s
  }

  function TrimEnd(s: string): (r: string)
    ensures |r| <= |s|
    ensures r == [] || !IsSpace(r[|r| - 1])
    ensures r == s[..|r|]
  {
    if s != [] && IsSpace(s[|s| - 1]) then TrimEnd(s[..|s| - 1]) else s
  }

  /** `s.trim()`. */
  function Trim(s: string): (r: string)
    ensures |r| <= |s|
    ensures r == [] || (!IsSpace(r[0]) && !IsSpace(r[|r| - 1]))
  {
    TrimEnd(TrimStart(s))
  }

  // ---------------------------------------------------------------------------
  // filter and subsequences

  /** The position of the first element that satisfies `p`: what a `findBy` /
      `where(...).first()` query returns on an in-memory table. */
  function FirstIndex<T>(xs: seq<T>, p: T -> bool): (r: Option<nat>)
    ensures r.Some? ==> r.value < |xs| && p(xs[r.value]) && forall j :: 0 <= j < r.value ==> !p(xs[j])
    ensures r.None? ==> forall j :: 0 <= j < |xs| ==> !p(xs[j])
  {
    if xs == [] then None
    else if p(xs[0]) then Some(0)
    else match FirstIndex(xs[1..], p)
      case None => None
      case Some(k) => Some(k + 1)
  }

  /** `xs.filter(keep)`. */
  function Filter<T>(xs: seq<T>, keep: T -> bool): (r: seq<T>)
    ensures |r| <= |xs|
    ensures forall i :: 0 <= i < |r| ==> keep(r[i]) && r[i] in xs
    ensures forall i :: 0 <= i < |xs| && keep(xs[i]) ==> xs[i] in r
  {
    if xs == [] then []
    else (if keep(xs[0]) then [xs[0]] else []) + Filter(xs[1..], keep)
  }

  lemma {:induction false} FilterAppend<T>(xs: seq<T>, ys: seq<T>, keep: T -> bool)
    ensures Filter(xs + ys, keep) == Filter(xs, keep) + Filter(ys, keep)
  {
    if xs == [] {
      assert xs + ys == ys;
    } else {
      assert (xs + ys)[1..] == xs[1..] + ys;
      FilterAppend(xs[1..], ys, keep);
    }
  }

  lemma {:induction false} FilterNone<T>(xs: seq<T>, keep: T -> bool)
    requires forall i :: 0 <= i < |xs| ==> !keep(xs[i])
    ensures Filter(xs, keep) == []
  {
    if xs != [] {
      FilterNone(xs[1..], keep);
    }
  }

  /** `a` is `b` with some elements removed and the rest kept in order. */
  predicate IsSubsequence<T(==)>(a: seq<T>, b: seq<T>)
    decreases |b|
  {
    if a == [] then true
    else if b == [] then false
    else if a[0] == b[0] then IsSubsequence(a[1..], b[1..])
    else IsSubsequence(a, b[1..])
  }

  lemma {:induction false} FilterIsSubsequence<T>(xs: seq<T>, keep: T -> bool)
    ensures IsSubsequence(Filter(xs, keep), xs)
  {
    if xs != [] {
      FilterIsSubsequence(xs[1..], keep);
      var r := Filter(xs, keep);
      if keep(xs[0]) {
        assert r == [xs[0]] + Filter(xs[1..], keep);
        assert r[1..] == Filter(xs[1..], keep);
      } else {
        // the head of r passes `keep` while xs[0] does not, so they differ
        assert r == Filter(xs[1..], keep);
      }
    }
  }

  lemma {:induction false} FilterKeepsAll<T>(xs: seq<T>, keep: T -> bool)
    requires forall i :: 0 <= i < |xs| ==> keep(xs[i])
    ensures Filter(xs, keep) == xs
  {
    if xs != [] {
      FilterKeepsAll(xs[1..], keep);
    }
  }

  lemma {:induction false} FilterDropHead<T>(xs: seq<T>, keep: T -> bool)
    requires xs != [] && !keep(xs[0])
    requires forall i :: 0 < i < |xs| ==> keep(xs[i])
    ensures Filter(xs, keep) == xs[1..]
  {
    var tail := xs[1..];
    assert forall i :: 0 <= i < |tail| ==> keep(tail[i]) by {
      forall i | 0 <= i < |tail| ensures keep(tail[i]) {
        assert tail[i] == xs[i + 1];
      }
    }
    FilterKeepsAll(tail, keep);
  }

  lemma {:induction false} FilterKeepHead<T>(xs: seq<T>, keep: T -> bool, rest: seq<T>)
    requires xs != [] && keep(xs[0]) && Filter(xs[1..], keep) == rest
    ensures Filter(xs, keep) == [xs[0]] + rest
  {
  }

  lemma {:induction false} SplitAroundHead<T>(xs: seq<T>, k: nat)
    requires 0 < k < |xs|
    ensures xs[..k] + xs[k + 1..] == [xs[0]] + (xs[1..][..k - 1] + xs[1..][k..])
  {
    assert xs[..k] == [xs[0]] + xs[1..][..k - 1];
    assert xs[k + 1..] == xs[1..][k..];
  }

  /** Filtering out exactly the element at `k` is removing it. */
  lemma {:induction false} FilterRemovesOne<T>(xs: seq<T>, k: nat, keep: T -> bool)
    requires k < |xs| && !keep(xs[k])
    requires forall i :: 0 <= i < |xs| && i != k ==> keep(xs[i])
    ensures Filter(xs, keep) == xs[..k] + xs[k + 1..]
  {
    if k == 0 {
      FilterDropHead(xs, keep);
      assert xs[..0] + xs[1..] == xs[1..];
    } else {
      var tail := xs[1..];
      forall i | 0 <= i < |tail| && i != k - 1
        ensures keep(tail[i])
      {
        assert tail[i] == xs[i + 1];
      }
      FilterRemovesOne(tail, k - 1, keep);
      FilterKeepHead(xs, keep, tail[..k - 1] + tail[k..]);
      SplitAroundHead(xs, k);
    }
  }

  lemma {:induction false} FilterSamePredicate<T>(xs: seq<T>, p: T -> bool, q: T -> bool)
    requires forall i :: 0 <= i < |xs| ==> p(xs[i]) == q(xs[i])
    ensures Filter(xs, p) == Filter(xs, q)
  {
    if xs != [] {
      FilterSamePredicate(xs[1..], p, q);
    }
  }
}
