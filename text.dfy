/**
 * String helpers with the behaviour of the JavaScript built-ins the
 * application relies on: decimal rendering of a whole number (template
 * interpolation), `toLowerCase`, `includes`, `Array.prototype.join`, and the
 * `split` that reads a joined string back.
 */
module Text {

  predicate IsDigit(c: char) {
    '0' <= c <= '9'
  }

  predicate AllDigits(s: string) {
    forall i :: 0 <= i < |s| ==> IsDigit(s[i])
  }

  function DigitChar(d: nat): (c: char)
    requires d < 10
    ensures IsDigit(c) && c as int - '0' as int == d
  {
    (d + '0' as int) as char
  }

  /** Decimal rendering of a whole number, with no leading zeros. */
  function NatToString(n: nat): (s: string)
    ensures |s| >= 1 && AllDigits(s)
    ensures |s| > 1 ==> s[0] != '0'
    decreases n
  {
    if n < 10 then [DigitChar(n)] else NatToString(n / 10) + [DigitChar(n % 10)]
  }

  /** The number a string of decimal digits denotes. */
  function DigitsValue(s: string): nat
    requires AllDigits(s)
    decreases |s|
  {
    if s == [] then 0 else DigitsValue(s[..|s| - 1]) * 10 + (s[|s| - 1] as int - '0' as int)
  }

  /** Reading the decimal rendering back gives the number. */
  lemma {:induction false} DigitsValueOfNatToString(n: nat)
    ensures DigitsValue(NatToString(n)) == n
    decreases n
  {
    if n >= 10 {
      var s := NatToString(n);
      assert s[..|s| - 1] == NatToString(n / 10);
      DigitsValueOfNatToString(n / 10);
    }
  }

  lemma NatToStringInjective(m: nat, n: nat)
    requires NatToString(m) == NatToString(n)
    ensures m == n
  {
    DigitsValueOfNatToString(m);
    DigitsValueOfNatToString(n);
  }

  /** Splits off the longest prefix of decimal digits. */
  function TakeDigits(s: string): (r: (string, string))
    ensures AllDigits(r.0) && r.0 + r.1 == s
    ensures r.1 != [] ==> !IsDigit(r.1[0])
    decreases |s|
  {
    if s != [] && IsDigit(s[0]) then
      var rest := TakeDigits(s[1..]);
      ConsRegroup(s, rest.0, rest.1);
      ([s[0]] + rest.0, rest.1)
    else
      ([], s)
  }

  lemma {:induction false} TakeDigitsOf(d: string, rest: string)
    requires AllDigits(d)
    requires rest != [] ==> !IsDigit(rest[0])
    ensures TakeDigits(d + rest) == (d, rest)
    decreases |d|
  {
    if d == [] {
      assert d + rest == rest;
    } else {
      TailOfConcat(d, rest);
      TakeDigitsOf(d[1..], rest);
      HeadTail(d);
    }
  }

  lemma ConcatAssoc<T>(a: seq<T>, b: seq<T>, c: seq<T>)
    ensures a + b + c == a + (b + c)
  {
  }

  lemma RegroupSix<T>(a: seq<T>, b: seq<T>, c: seq<T>, d: seq<T>, e: seq<T>, f: seq<T>)
    ensures a + b + c + d + e + f == a + (b + c + (d + e + f))
  {
    ConcatAssoc(d, e, f);
    ConcatAssoc(b + c, d + e, f);
    ConcatAssoc(b + c, d, e);
    ConcatAssoc(a, b + c + d + e, f);
    ConcatAssoc(a, b + c + d, e);
    ConcatAssoc(a, b + c, d);
    ConcatAssoc(a, b, c);
  }

  /** A field holding the separator, regrouped from the join's left-nested form into a right-nested one. */
  lemma RegroupFields<T>(e: seq<T>, s: seq<T>, a: seq<T>, b: seq<T>, t: seq<T>, u: seq<T>)
    ensures e + s + (a + s + b) + s + t + s + u == e + s + (a + s + (b + s + (t + s + u)))
  {
  }

  /** A concatenation starts with its first part and ends with its last. */
  lemma Ends<T>(a: seq<T>, b: seq<T>, c: seq<T>)
    ensures |a + b + c| >= |a| + |c|
    ensures (a + b + c)[..|a|] == a && (a + b + c)[|a + b + c| - |c|..] == c
  {
  }

  lemma RegroupMiddle<T>(a: seq<T>, b: seq<T>, c: seq<T>, d: seq<T>, e: seq<T>)
    ensures a + b + c + (d + e) == a + (b + c + d) + e
  {
  }

  lemma FullSlice<T>(s: seq<T>)
    ensures s[..|s|] == s
  {
  }

  lemma ConsFive<T>(p: T, q: T, r: T, s: T, t: T)
    ensures [p] + ([q] + ([r] + ([s] + [t]))) == [p, q, r, s, t]
  {
  }

  /** The head of `s` put back before a split of its tail gives `s`. */
  lemma ConsRegroup<T>(s: seq<T>, a: seq<T>, b: seq<T>)
    requires s != [] && a + b == s[1..]
    ensures [s[0]] + a + b == s
  {
    ConcatAssoc([s[0]], a, b);
    HeadTail(s);
  }

  /** Every character of an occurring substring occurs in the string. */
  lemma CharOfContained(s: string, sub: string, c: char)
    ensures c in sub && Contains(s, sub) ==> c in s
  {
    if c in sub && Contains(s, sub) {
      ContainsIff(s, sub);
      var i :| OccursAt(s, sub, i);
      var k :| 0 <= k < |sub| && sub[k] == c;
      assert s[i..i + |sub|][k] == s[i + k];
    }
  }

  lemma PresentAt(s: string, sub: string, i: nat)
    requires i + |sub| <= |s| && s[i..i + |sub|] == sub
    ensures Contains(s, sub)
  {
    ContainsIff(s, sub);
    assert OccursAt(s, sub, i);
  }

  /** A string that lacks one character of `sub` does not contain `sub`. */
  lemma Lacks(s: string, sub: string, c: char)
    requires c in sub && c !in s
    ensures !Contains(s, sub)
  {
    CharOfContained(s, sub, c);
  }

  /** A string contains each of its infixes. */
  lemma ContainsInfix(pre: string, sub: string, post: string)
    ensures Contains(pre + sub + post, sub)
  {
    assert (pre + sub + post)[|pre|..|pre| + |sub|] == sub;
    PresentAt(pre + sub + post, sub, |pre|);
  }

  /** ASCII lower-casing of one character. */
  function LowerChar(c: char): char {
    if 'A' <= c <= 'Z' then (c as int + 32) as char else c
  }

  function ToLower(s: string): (r: string)
    ensures |r| == |s|
  {
    seq(|s|, i requires 0 <= i < |s| => LowerChar(s[i]))
  }

  lemma ToLowerIdempotent(s: string)
    ensures ToLower(ToLower(s)) == ToLower(s)
  {
  }

  ghost predicate OccursAt(s: string, sub: string, i: int) {
    0 <= i && i + |sub| <= |s| && s[i..i + |sub|] == sub
  }

  /** `s.includes(sub)` */
  function Contains(s: string, sub: string): bool
    decreases |s|
  {
    if |sub| > |s| then false else s[..|sub|] == sub || Contains(s[1..], sub)
  }

  /** `Contains` holds exactly when `sub` occurs somewhere in `s`. */
  lemma {:induction false} ContainsIff(s: string, sub: string)
    ensures Contains(s, sub) <==> exists i :: OccursAt(s, sub, i)
    decreases |s|
  {
    if |sub| <= |s| {
      if s[..|sub|] == sub {
        assert OccursAt(s, sub, 0);
      } else {
        ContainsIff(s[1..], sub);
        forall i | OccursAt(s[1..], sub, i)
          ensures OccursAt(s, sub, i + 1)
        {
          assert s[1..][i..i + |sub|] == s[i + 1..i + 1 + |sub|];
        }
        forall i | OccursAt(s, sub, i)
          ensures OccursAt(s[1..], sub, i - 1)
        {
          assert i != 0;
          assert s[1..][i - 1..i - 1 + |sub|] == s[i..i + |sub|];
        }
      }
    }
  }

  /** `parts.join(sep)` */
  function Join(parts: seq<string>, sep: string): string
  {
    if |parts| == 0 then "" else if |parts| == 1 then parts[0] else parts[0] + sep + Join(parts[1..], sep)
  }

  lemma JoinFour(a: string, b: string, c: string, d: string, sep: string)
    ensures Join([a, b, c, d], sep) == a + sep + b + sep + c + sep + d
  {
    assert [a, b, c, d][1..] == [b, c, d] && [b, c, d][1..] == [c, d] && [c, d][1..] == [d];
    assert Join([d], sep) == d;
    var cd := Join([c, d], sep);
    assert cd == c + sep + Join([d], sep);
    var bcd := Join([b, c, d], sep);
    assert bcd == b + sep + cd;
    assert Join([a, b, c, d], sep) == a + sep + bcd;
    assert b + sep + (c + sep + d) == b + sep + c + sep + d;
    assert a + sep + (b + sep + c + sep + d) == a + sep + b + sep + c + sep + d;
  }

  lemma JoinFive(a: string, b: string, c: string, d: string, e: string, sep: string)
    ensures Join([a, b, c, d, e], sep) == a + sep + b + sep + c + sep + d + sep + e
  {
    assert [a, b, c, d, e][1..] == [b, c, d, e];
    JoinFour(b, c, d, e, sep);
  }

  lemma {:induction false} JoinExcludes(parts: seq<string>, sep: string, c: char)
    requires c !in sep
    requires forall i :: 0 <= i < |parts| ==> c !in parts[i]
    ensures c !in Join(parts, sep)
    decreases |parts|
  {
    if |parts| > 1 {
      JoinExcludes(parts[1..], sep, c);
    }
  }

  /** `s.split(c)` for a one-character separator. */
  function Split(s: string, c: char): (r: seq<string>)
    ensures |r| >= 1
    decreases |s|
  {
    if s == [] then [""]
    else if s[0] == c then [""] + Split(s[1..], c)
    else
      var rest := Split(s[1..], c);
      [[s[0]] + rest[0]] + rest[1..]
  }

  lemma {:induction false} SplitPrefix(a: string, b: string, c: char)
    requires c !in a
    ensures Split(a + b, c) == [a + Split(b, c)[0]] + Split(b, c)[1..]
    decreases |a|
  {
    if a == [] {
      assert a + b == b;
      assert a + Split(b, c)[0] == Split(b, c)[0];
      HeadTail(Split(b, c));
    } else {
      TailOfConcat(a, b);
      SplitPrefix(a[1..], b, c);
      ConcatAssoc([a[0]], a[1..], Split(b, c)[0]);
      HeadTail(a);
    }
  }

  lemma SplitNoSeparator(a: string, c: char)
    requires c !in a
    ensures Split(a, c) == [a]
  {
    SplitPrefix(a, "", c);
    assert a + "" == a;
  }

  lemma SplitAtSeparator(a: string, b: string, c: char)
    requires c !in a
    ensures Split(a + [c] + b, c) == [a] + Split(b, c)
  {
    assert a + [c] + b == a + ([c] + b);
    SplitPrefix(a, [c] + b, c);
    assert ([c] + b)[1..] == b;
    assert a + "" == a;
  }

  /** Splitting a joined list on its separator gives the list back when no part contains the separator. */
  lemma {:induction false} SplitJoin(parts: seq<string>, c: char)
    requires |parts| >= 1
    requires forall i :: 0 <= i < |parts| ==> c !in parts[i]
    ensures Split(Join(parts, [c]), c) == parts
    decreases |parts|
  {
    if |parts| == 1 {
      SplitNoSeparator(parts[0], c);
    } else {
      SplitJoin(parts[1..], c);
      SplitAtSeparator(parts[0], Join(parts[1..], [c]), c);
      assert [parts[0]] + parts[1..] == parts;
    }
  }

  /** The concatenation of `f(x)` for every `x` of `s`, in order. */
  function ConcatMap<T>(f: T -> string, s: seq<T>): string
    decreases |s|
  {
    if s == [] then "" else ConcatMap(f, s[..|s| - 1]) + f(s[|s| - 1])
  }

  lemma ConcatMapSnoc<T>(f: T -> string, s: seq<T>, i: nat)
    requires i < |s|
    ensures ConcatMap(f, s[..i + 1]) == ConcatMap(f, s[..i]) + f(s[i])
  {
    assert s[..i + 1][..i] == s[..i];
  }

  lemma {:induction false} ConcatMapAppend<T>(f: T -> string, a: seq<T>, b: seq<T>)
    ensures ConcatMap(f, a + b) == ConcatMap(f, a) + ConcatMap(f, b)
    decreases |b|
  {
    if b == [] {
      assert a + b == a;
    } else {
      assert (a + b)[..|a + b| - 1] == a + b[..|b| - 1];
      ConcatMapAppend(f, a, b[..|b| - 1]);
    }
  }

  lemma ConcatMapSingle<T>(f: T -> string, x: T)
    ensures ConcatMap(f, [x]) == f(x)
  {
    assert [x][..0] == [];
  }

  lemma ConcatMapAround<T>(f: T -> string, pre: seq<T>, x: T, post: seq<T>)
    ensures ConcatMap(f, pre + [x] + post) == ConcatMap(f, pre) + f(x) + ConcatMap(f, post)
  {
    ConcatMapAppend(f, pre + [x], post);
    ConcatMapAppend(f, pre, [x]);
    ConcatMapSingle(f, x);
  }

  lemma TailOfConcat<T>(a: seq<T>, b: seq<T>)
    requires a != []
    ensures (a + b)[0] == a[0] && (a + b)[1..] == a[1..] + b
  {
  }

  lemma HeadTail<T>(s: seq<T>)
    requires s != []
    ensures [s[0]] + s[1..] == s
  {
  }

  lemma SplitSeqAt<T>(s: seq<T>, i: nat)
    requires i < |s|
    ensures s == s[..i] + [s[i]] + s[i + 1..]
  {
  }

  lemma ConcatMapSplitAt<T>(f: T -> string, s: seq<T>, i: nat)
    requires i < |s|
    ensures ConcatMap(f, s) == ConcatMap(f, s[..i]) + f(s[i]) + ConcatMap(f, s[i + 1..])
  {
    SplitSeqAt(s, i);
    ConcatMapAround(f, s[..i], s[i], s[i + 1..]);
  }

  lemma RegroupAfter<T>(h: seq<T>, a: seq<T>, b: seq<T>, c: seq<T>)
    ensures h + (a + b + c) == h + a + b + c
  {
    ConcatAssoc(a, b, c);
    ConcatAssoc(h, a, b + c);
    ConcatAssoc(h + a, b, c);
  }

  /** `ConcatMapSplitAt` inside a surrounding text. */
  lemma ConcatMapSplitWithin<T>(f: T -> string, s: seq<T>, i: nat, head: string, tail1: string, tail2: string)
    requires i < |s|
    ensures head + ConcatMap(f, s) + tail1 + tail2
         == head + ConcatMap(f, s[..i]) + f(s[i]) + ConcatMap(f, s[i + 1..]) + tail1 + tail2
  {
    ConcatMapSplitAt(f, s, i);
    RegroupAfter(head, ConcatMap(f, s[..i]), f(s[i]), ConcatMap(f, s[i + 1..]));
  }
}
