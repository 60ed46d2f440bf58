/** Text helpers standing in for the parts of Swift's `String`, `Int(String)` and
    `"\(n)"` that the filter code relies on. */
module Text {
  import opened Wrappers

  /** The ASCII decimal digit for `d`. */
  function DigitChar(d: nat): (c: char)
    requires d < 10
    ensures '0' <= c <= '9'
    ensures c as int - '0' as int == d
  {
    (48 + d) as char
  }

  predicate IsDigit(c: char) {
    '0' <= c <= '9'
  }

  predicate AllDigits(s: string) {
    forall i :: 0 <= i < |s| ==> IsDigit(s[i])
  }

  /** The text `Int(String)` accepts: an optional sign and one or more digits. */
  predicate IntSyntax(s: string) {
    || (|s| >= 1 && AllDigits(s))
    || (|s| >= 2 && (s[0] == '-' || s[0] == '+') && AllDigits(s[1..]))
  }

  /** Decimal rendering of a natural number, most significant digit first. */
  function NatToString(n: nat): (s: string)
    ensures |s| >= 1 && AllDigits(s)
    ensures |s| > 1 ==> s[0] != '0'
    decreases n
  {
    if n < 10 then [DigitChar(n)]
    else NatToString(n / 10) + [DigitChar(n % 10)]
  }

  /** Swift's `"\(n)"` / `n.description` for an `Int`. */
  function IntToString(n: int): (s: string)
    ensures |s| >= 1
    ensures n < 0 <==> s[0] == '-'
  {
    if n < 0 then "-" + NatToString(-n) else NatToString(n)
  }

  /** The value of a string of decimal digits. */
  function DigitsValue(s: string): nat
    requires AllDigits(s)
    decreases |s|
  {
    if |s| == 0 then 0
    else DigitsValue(s[..|s| - 1]) * 10 + (s[|s| - 1] as int - '0' as int)
  }

  /** Swift's `Int(String)`: an optional `+` or `-` sign followed by one or more
      ASCII digits; anything else (including the empty string, a lone sign,
      spaces or a decimal point) is `nil`. */
  function ParseInt(s: string): (r: Option<int>)
    ensures r.Some? <==> IntSyntax(s)
    ensures |s| >= 1 && AllDigits(s) ==> r == Some(DigitsValue(s))
    ensures |s| >= 2 && s[0] == '+' && AllDigits(s[1..]) ==> r == Some(DigitsValue(s[1..]))
    ensures |s| >= 2 && s[0] == '-' && AllDigits(s[1..]) ==> r == Some(-(DigitsValue(s[1..]) as int))
    ensures r.Some? && r.value < 0 ==> s[0] == '-'
  {
    if |s| == 0 then None
    else if s[0] == '-' || s[0] == '+' then
      var digits := s[1..];
      if |digits| >= 1 && AllDigits(digits) then
        var v: int := DigitsValue(digits);
        Some(if s[0] == '-' then -v else v)
      else None
    else if AllDigits(s) then Some(DigitsValue(s))
    else None
  }

  lemma {:induction false} DigitsOfNat(n: nat)
    ensures DigitsValue(NatToString(n)) == n
    decreases n
  {
    if n >= 10 {
      var prefix := NatToString(n / 10);
      var s := prefix + [DigitChar(n % 10)];
      assert s[..|s| - 1] == prefix;
      DigitsOfNat(n / 10);
    }
  }

  /** Printing an integer and parsing it back gives the integer again. */
  lemma IntRoundTrip(n: int)
    ensures ParseInt(IntToString(n)) == Some(n)
  {
    if n < 0 {
      DigitsOfNat(-n);
      assert IntToString(n)[1..] == NatToString(-n);
    } else {
      DigitsOfNat(n);
    }
  }

  /** Digits-only strings never start with a sign, so parsing a rendered
      natural number yields a non-negative value. */
  lemma ParseNatString(n: nat)
    ensures ParseInt(NatToString(n)) == Some(n)
  {
    DigitsOfNat(n);
  }

  /** Concatenation of the parts with `sep` between consecutive parts
      (Swift's `joined(separator:)`). */
  function Join(parts: seq<string>, sep: string): (r: string)
    ensures |parts| == 0 ==> r == ""
    ensures |parts| == 1 ==> r == parts[0]
    ensures |parts| >= 1 ==> |r| >= |parts[0]| && r[..|parts[0]|] == parts[0]
  {
    if |parts| == 0 then ""
    else if |parts| == 1 then parts[0]
    else parts[0] + sep + Join(parts[1..], sep)
  }

  /** Swift's `components(separatedBy:)` for a one-character separator: the
      pieces between separators, empty pieces included. */
  function Components(s: string, c: char): (r: seq<string>)
    ensures |r| >= 1
    ensures forall i :: 0 <= i < |r| ==> c !in r[i]
    decreases |s|
  {
    if |s| == 0 then [""]
    else
      var rest := Components(s[1..], c);
      if s[0] == c then [""] + rest
      else [[s[0]] + rest[0]] + rest[1..]
  }

  /** The pieces of `Components`, re-joined with the separator, give back the text. */
  lemma {:induction false} JoinComponents(s: string, c: char)
    ensures Join(Components(s, c), [c]) == s
    decreases |s|
  {
    if |s| > 0 {
      var rest := Components(s[1..], c);
      JoinComponents(s[1..], c);
      if s[0] == c {
        JoinConsEmpty(rest, c);
      } else {
        JoinConsChar(s[0], rest, c);
      }
      assert s == [s[0]] + s[1..];
    }
  }

  /** An empty first part contributes only the separator. */
  lemma JoinConsEmpty(rest: seq<string>, c: char)
    requires |rest| >= 1
    ensures Join([""] + rest, [c]) == [c] + Join(rest, [c])
  {
    assert ([""] + rest)[1..] == rest;
  }

  /** A character put in front of the first part goes in front of the join. */
  lemma JoinConsChar(x: char, rest: seq<string>, c: char)
    requires |rest| >= 1
    ensures Join([[x] + rest[0]] + rest[1..], [c]) == [x] + Join(rest, [c])
  {
    var head := [x] + rest[0];
    if |rest| == 1 {
      assert [head] + rest[1..] == [head];
    } else {
      JoinConsCharMore(x, head, rest, [head] + rest[1..], c);
    }
  }

  lemma JoinConsCharMore(x: char, head: string, rest: seq<string>, r: seq<string>, c: char)
    requires |rest| >= 2 && head == [x] + rest[0]
    requires |r| == |rest| && r[0] == head && r[1..] == rest[1..]
    ensures Join(r, [c]) == [x] + Join(rest, [c])
  {
    var j := Join(rest[1..], [c]);
    assert Join(r, [c]) == head + [c] + j;
    assert Join(rest, [c]) == rest[0] + [c] + j;
  }

  /** Splitting a joined list of separator-free parts gives the parts back. */
  lemma {:induction false} ComponentsOfJoin(parts: seq<string>, c: char)
    requires |parts| >= 1
    requires forall i :: 0 <= i < |parts| ==> c !in parts[i]
    ensures Components(Join(parts, [c]), c) == parts
    decreases |parts|, |parts[0]|
  {
    var p := parts[0];
    if |p| == 0 {
      if |parts| > 1 {
        ComponentsOfJoin(parts[1..], c);
        var j := Join(parts, [c]);
        assert j == [c] + Join(parts[1..], [c]);
        assert j[1..] == Join(parts[1..], [c]);
        assert parts == [""] + parts[1..];
      }
    } else {
      var tail := [p[1..]] + parts[1..];
      assert tail[1..] == parts[1..];
      forall i | 0 <= i < |tail| ensures c !in tail[i] {
        if i == 0 {
          assert forall x :: x in p[1..] ==> x in p;
        } else {
          assert tail[i] == parts[i];
        }
      }
      ComponentsOfJoin(tail, c);
      var j := Join(parts, [c]);
      JoinHeadChar(parts, tail, c);
      assert j[0] == p[0] && p[0] != c;
      assert j[1..] == Join(tail, [c]);
      assert p == [p[0]] + p[1..];
      assert parts == [[p[0]] + p[1..]] + parts[1..];
    }
  }

  /** Dropping the first character of the first part drops the first
      character of the join. */
  lemma JoinHeadChar(parts: seq<string>, tail: seq<string>, c: char)
    requires |parts| >= 1 && |parts[0]| > 0
    requires |tail| == |parts| && tail[0] == parts[0][1..] && tail[1..] == parts[1..]
    ensures |Join(parts, [c])| > 0 && Join(parts, [c])[0] == parts[0][0]
    ensures Join(parts, [c])[1..] == Join(tail, [c])
  {
    if |parts| > 1 {
      var rest := Join(parts[1..], [c]);
      assert Join(tail, [c]) == tail[0] + [c] + rest;
      assert Join(parts, [c]) == parts[0] + [c] + rest;
    }
  }

  /** Swift's `split(separator:)` with its default of omitting empty pieces. */
  function Split(s: string, c: char): (r: seq<string>)
    ensures forall i :: 0 <= i < |r| ==> |r[i]| > 0 && c !in r[i]
    ensures forall x :: x in r <==> x in Components(s, c) && |x| > 0
    ensures IsSubsequence(r, Components(s, c))
  {
    NonEmpty(Components(s, c))
  }

  /** The non-empty strings of `xs`, in order. */
  function NonEmpty(xs: seq<string>): (r: seq<string>)
    ensures |r| <= |xs|
    ensures forall i :: 0 <= i < |r| ==> |r[i]| > 0 && r[i] in xs
    ensures forall x :: x in xs && |x| > 0 ==> x in r
    ensures IsSubsequence(r, xs)
  {
    if |xs| == 0 then []
    else if |xs[0]| == 0 then
      var rest := NonEmpty(xs[1..]);
      SubsequenceOfTail(rest, xs);
      rest
    else
      var r := [xs[0]] + NonEmpty(xs[1..]);
      assert r[1..] == NonEmpty(xs[1..]);
      r
  }

  /** Splitting a joined list of non-empty, separator-free parts gives the parts back. */
  lemma SplitOfJoin(parts: seq<string>, c: char)
    requires |parts| >= 1
    requires forall i :: 0 <= i < |parts| ==> |parts[i]| > 0 && c !in parts[i]
    ensures Split(Join(parts, [c]), c) == parts
  {
    ComponentsOfJoin(parts, c);
    NonEmptyOfNonEmpty(parts);
  }

  lemma {:induction false} NonEmptyOfNonEmpty(xs: seq<string>)
    requires forall i :: 0 <= i < |xs| ==> |xs[i]| > 0
    ensures NonEmpty(xs) == xs
    decreases |xs|
  {
    if |xs| > 0 {
      NonEmptyOfNonEmpty(xs[1..]);
    }
  }

  /** Swift's `removeLast()` on a non-empty array, as a copy. */
  function DropLast<T>(xs: seq<T>): (r: seq<T>)
    requires |xs| >= 1
    ensures |r| == |xs| - 1
    ensures forall i :: 0 <= i < |r| ==> r[i] == xs[i]
  {
    xs[..|xs| - 1]
  }

  /** `a` is `b` with some elements left out, order kept. */
  predicate IsSubsequence(a: seq<string>, b: seq<string>)
    decreases |b|
  {
    if |a| == 0 then true
    else if |b| == 0 then false
    else if a[0] == b[0] then IsSubsequence(a[1..], b[1..])
    else IsSubsequence(a, b[1..])
  }

  /** A subsequence of the tail is a subsequence of the whole. */
  lemma {:induction false} SubsequenceOfTail(a: seq<string>, b: seq<string>)
    requires |b| > 0 && IsSubsequence(a, b[1..])
    ensures IsSubsequence(a, b)
    decreases |b|, 0
  {
    if |a| > 0 && a[0] == b[0] {
      SubsequenceDropHead(a, b[1..]);
    }
  }

  /** Dropping the head of a subsequence keeps it a subsequence. */
  lemma {:induction false} SubsequenceDropHead(a: seq<string>, b: seq<string>)
    requires |a| > 0 && IsSubsequence(a, b)
    ensures IsSubsequence(a[1..], b)
    decreases |b|, 1
  {
    if a[0] == b[0] {
      SubsequenceOfTail(a[1..], b);
    } else {
      SubsequenceDropHead(a, b[1..]);
      SubsequenceOfTail(a[1..], b);
    }
  }
}
