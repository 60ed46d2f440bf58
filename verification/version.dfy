/** The `Tag` of the release script: a `MAJOR.MINOR.PATCH` version, its
    three successors as Semantic Versioning 2.0.0 defines them (items 6 to
    8), its text, and reading the current tag back from the text git prints. */
module Version {
  import opened Wrappers
  import opened Text

  datatype Tag = Tag(major: int, minor: int, patch: int)

  /** The precedence of item 11 of Semantic Versioning 2.0.0 for versions
      without pre-release or build parts: compare major, then minor, then
      patch. */
  predicate Less(a: Tag, b: Tag) {
    a.major < b.major
    || (a.major == b.major && a.minor < b.minor)
    || (a.major == b.major && a.minor == b.minor && a.patch < b.patch)
  }

  /** `nextPatch`: a backwards compatible bug fix (item 6). */
  function NextPatch(t: Tag): (r: Tag)
    ensures r.major == t.major && r.minor == t.minor && r.patch == t.patch + 1
    ensures Less(t, r)
  {
    t.(patch := t.patch + 1)
  }

  /** `nextMinor`: new backwards compatible functionality; the patch
      version resets to 0 (item 7). */
  function NextMinor(t: Tag): (r: Tag)
    ensures r.major == t.major && r.minor == t.minor + 1 && r.patch == 0
    ensures Less(t, r)
  {
    Tag(t.major, t.minor + 1, 0)
  }

  /** `nextMajor`: an incompatible change; minor and patch reset to 0 (item 8). */
  function NextMajor(t: Tag): (r: Tag)
    ensures r.major == t.major + 1 && r.minor == 0 && r.patch == 0
    ensures Less(t, r)
  {
    Tag(t.major + 1, 0, 0)
  }

  /** The successors are ordered: the next patch comes before the next minor,
      which comes before the next major; each is the least tag of its shape
      above the current one. */
  lemma SuccessorsOrdered(t: Tag)
    ensures Less(NextPatch(t), NextMinor(t)) && Less(NextMinor(t), NextMajor(t))
    ensures forall u: Tag :: u.major == t.major && u.minor == t.minor && Less(t, u) ==> u.patch >= NextPatch(t).patch
    ensures Less(t, NextPatch(t)) && Less(t, NextMinor(t)) && Less(t, NextMajor(t))
  {
  }

  /** `Less` is a strict total order on tags. */
  lemma LessIsStrictOrder(a: Tag, b: Tag, c: Tag)
    ensures !Less(a, a)
    ensures Less(a, b) ==> !Less(b, a)
    ensures Less(a, b) && Less(b, c) ==> Less(a, c)
    ensures a != b ==> Less(a, b) || Less(b, a)
  {
  }

  /** `description`: the three numbers joined with dots. */
  function Description(t: Tag): string {
    IntToString(t.major) + "." + IntToString(t.minor) + "." + IntToString(t.patch)
  }

  /** The description splits at its dots into the three rendered numbers. */
  lemma DescriptionSplits(t: Tag)
    ensures Split(Description(t), '.') == [IntToString(t.major), IntToString(t.minor), IntToString(t.patch)]
  {
    var parts := [IntToString(t.major), IntToString(t.minor), IntToString(t.patch)];
    DescriptionPieces(parts, t);
    JoinThree(parts[0], parts[1], parts[2], '.');
  }

  lemma DescriptionPieces(parts: seq<string>, t: Tag)
    requires parts == [IntToString(t.major), IntToString(t.minor), IntToString(t.patch)]
    ensures Split(Join(parts, ['.']), '.') == parts
  {
    NoDotInInt(t.major);
    NoDotInInt(t.minor);
    NoDotInInt(t.patch);
    SplitOfJoin(parts, '.');
  }

  lemma JoinThree(a: string, b: string, c: string, sep: char)
    ensures Join([a, b, c], [sep]) == a + [sep] + b + [sep] + c
  {
    var parts := [a, b, c];
    assert parts[1..] == [b, c];
    assert parts[1..][1..] == [c];
    assert Join([b, c], [sep]) == b + [sep] + c;
  }

  /** A rendered integer holds no dot. */
  lemma NoDotInInt(n: int)
    ensures '.' !in IntToString(n)
  {
    if n < 0 {
      var m := NatToString(-n);
      assert IntToString(n) == "-" + m;
      assert forall i :: 0 <= i < |m| ==> m[i] != '.';
    }
  }

  /** A rendered integer starts and ends with a non-blank character. */
  lemma IntTextEnds(n: int)
    ensures !IsWhitespace(IntToString(n)[0])
    ensures !IsWhitespace(IntToString(n)[|IntToString(n)| - 1])
  {
    var s := IntToString(n);
    if n < 0 {
      var m := NatToString(-n);
      assert s == "-" + m;
      assert s[|s| - 1] == m[|m| - 1];
      assert IsDigit(m[|m| - 1]);
    } else {
      assert IsDigit(s[0]) && IsDigit(s[|s| - 1]);
    }
  }

  /** `CharacterSet.whitespacesAndNewlines`, the characters
      `trimmingCharacters(in:)` removes: the controls U+0009 to U+000D and
      U+0085, and the Unicode space, line and paragraph separators. */
  predicate IsWhitespace(c: char) {
    ('\t' <= c <= '\r') || c == ' ' || c == '\U{0085}' || c == '\U{00A0}' || c == '\U{1680}'
    || ('\U{2000}' <= c <= '\U{200A}') || c == '\U{2028}' || c == '\U{2029}'
    || c == '\U{202F}' || c == '\U{205F}' || c == '\U{3000}'
  }

  /** Remove leading and trailing whitespace. */
  function Trim(s: string): (r: string)
    ensures |r| <= |s|
    ensures |r| > 0 ==> !IsWhitespace(r[0]) && !IsWhitespace(r[|r| - 1])
    ensures (|s| == 0 || (!IsWhitespace(s[0]) && !IsWhitespace(s[|s| - 1]))) ==> r == s
    decreases |s|
  {
    if |s| == 0 then s
    else if IsWhitespace(s[0]) then Trim(s[1..])
    else if IsWhitespace(s[|s| - 1]) then Trim(s[..|s| - 1])
    else s
  }

  /** The tag text of `loadCurrentTag`: the first matching git tag, or
      "0.0.0" when git prints nothing. */
  function TagText(gitTag: string): (r: string)
    ensures gitTag == "" ==> r == "0.0.0"
    ensures gitTag != "" ==> r == gitTag
  {
    if gitTag == "" then "0.0.0" else gitTag
  }

  /** Each piece read as an integer, or nil. */
  function Decoded(pieces: seq<string>): (r: seq<Option<int>>)
    ensures |r| == |pieces|
    ensures forall i :: 0 <= i < |pieces| ==> r[i] == ParseInt(pieces[i])
  {
    seq(|pieces|, i requires 0 <= i < |pieces| => ParseInt(pieces[i]))
  }

  /** The pieces that read as integers, in order (`compactMap { Int($0) }`). */
  function IntsOf(pieces: seq<string>): (r: seq<int>)
    ensures |r| <= |pieces|
    ensures forall n :: n in r ==> exists i :: 0 <= i < |pieces| && ParseInt(pieces[i]) == Some(n)
    ensures forall i :: 0 <= i < |pieces| && ParseInt(pieces[i]).Some? ==> ParseInt(pieces[i]).value in r
  {
    var decoded := Decoded(pieces);
    assert forall n :: Some(n) in decoded ==> exists i :: 0 <= i < |pieces| && ParseInt(pieces[i]) == Some(n);
    CompactMap(decoded)
  }

  /** `IntsOf` keeps the order of the pieces: a single piece contributes its
      integer when it has one, and the integers of a concatenation are those
      of the first part followed by those of the second. */
  lemma IntsOfInOrder(a: seq<string>, b: seq<string>, p: string)
    ensures IntsOf([p]) == if ParseInt(p).Some? then [ParseInt(p).value] else []
    ensures IntsOf(a + b) == IntsOf(a) + IntsOf(b)
  {
    assert Decoded(a + b) == Decoded(a) + Decoded(b);
    CompactMapAppend(Decoded(a), Decoded(b));
    assert IntsOf(a + b) == CompactMap(Decoded(a + b));
    assert IntsOf(a) == CompactMap(Decoded(a));
    assert IntsOf(b) == CompactMap(Decoded(b));
    assert Decoded([p]) == [ParseInt(p)];
    assert IntsOf([p]) == CompactMap(Decoded([p]));
    assert Decoded([p])[1..] == [];
  }

  /** The trimmed text is the original with whitespace removed from its two
      ends only: an infix of it, everything before and after that infix is
      whitespace, and the infix neither starts nor ends with whitespace. */
  lemma {:induction false} TrimIsInfix(s: string) returns (i: nat)
    ensures i + |Trim(s)| <= |s| && Trim(s) == s[i..i + |Trim(s)|]
    ensures Blank(s, 0, i) && Blank(s, i + |Trim(s)|, |s|)
    ensures |Trim(s)| > 0 ==> !IsWhitespace(Trim(s)[0]) && !IsWhitespace(Trim(s)[|Trim(s)| - 1])
    decreases |s|
  {
    if |s| == 0 {
      i := 0;
    } else if IsWhitespace(s[0]) {
      var i' := TrimIsInfix(s[1..]);
      InfixAfterBlank(s, Trim(s[1..]), i');
      i := i' + 1;
    } else if IsWhitespace(s[|s| - 1]) {
      i := TrimIsInfix(s[..|s| - 1]);
      InfixBeforeBlank(s, Trim(s[..|s| - 1]), i);
    } else {
      i := 0;
    }
  }

  /** Every character of `s[from..to]` is whitespace. */
  predicate Blank(s: string, from: nat, to: nat)
    requires from <= to <= |s|
  {
    forall k :: from <= k < to ==> IsWhitespace(s[k])
  }

  /** An infix of the tail between blanks is an infix of the whole text
      when the text starts with whitespace. */
  lemma InfixAfterBlank(s: string, t: string, j: nat)
    requires |s| > 0 && IsWhitespace(s[0])
    requires j + |t| <= |s| - 1 && t == s[1..][j..j + |t|]
    requires Blank(s[1..], 0, j) && Blank(s[1..], j + |t|, |s| - 1)
    ensures t == s[j + 1..j + 1 + |t|]
    ensures Blank(s, 0, j + 1) && Blank(s, j + 1 + |t|, |s|)
  {
    forall k | 0 < k < |s|
      ensures s[k] == s[1..][k - 1]
    {
    }
  }

  /** An infix of the front between blanks is an infix of the whole text
      when the text ends with whitespace. */
  lemma InfixBeforeBlank(s: string, t: string, j: nat)
    requires |s| > 0 && IsWhitespace(s[|s| - 1])
    requires j + |t| <= |s| - 1 && t == s[..|s| - 1][j..j + |t|]
    requires Blank(s[..|s| - 1], 0, j) && Blank(s[..|s| - 1], j + |t|, |s| - 1)
    ensures t == s[j..j + |t|]
    ensures Blank(s, 0, j) && Blank(s, j + |t|, |s|)
  {
    forall k | 0 <= k < |s| - 1
      ensures s[k] == s[..|s| - 1][k]
    {
    }
  }

  /** Rendered integers read back as themselves. */
  lemma IntsOfRendered(a: int, b: int, c: int)
    ensures IntsOf([IntToString(a), IntToString(b), IntToString(c)]) == [a, b, c]
  {
    var pieces := [IntToString(a), IntToString(b), IntToString(c)];
    var decoded := Decoded(pieces);
    IntRoundTrip(a);
    IntRoundTrip(b);
    IntRoundTrip(c);
    assert decoded == [Some(a), Some(b), Some(c)];
    CompactMapAllSome(decoded);
  }

  /** The parts of the tag text that read as integers, in order. */
  function IntParts(s: string): seq<int> {
    IntsOf(Split(Trim(s), '.'))
  }

  /** `loadCurrentTag` without running git: trim the text, split it at dots,
      keep the pieces that read as integers, and accept exactly three. */
  function ParseTag(gitTag: string): (r: Option<Tag>)
    ensures r.Some? <==> |IntParts(TagText(gitTag))| == 3
    ensures r.Some? ==> var p := IntParts(TagText(gitTag)); r.value == Tag(p[0], p[1], p[2])
  {
    var parts := IntParts(TagText(gitTag));
    if |parts| == 3 then Some(Tag(parts[0], parts[1], parts[2])) else None
  }

  /** With no tag yet, the current tag is 0.0.0. */
  lemma EmptyIsZero()
    ensures ParseTag("") == Some(Tag(0, 0, 0))
  {
    var zero := Tag(0, 0, 0);
    DescriptionOfZero();
    DescriptionInts(zero);
    assert TagText("") == Description(zero);
  }

  lemma DescriptionOfZero()
    ensures Description(Tag(0, 0, 0)) == "0.0.0"
  {
    assert NatToString(0) == [DigitChar(0)] == "0";
  }

  /** Trimming a text that starts and ends with non-blanks, with or without a
      trailing newline, gives the text. */
  lemma TrimNewline(d: string, newline: string)
    requires |d| > 0 && !IsWhitespace(d[0]) && !IsWhitespace(d[|d| - 1])
    requires newline == "" || newline == "\n"
    ensures Trim(d + newline) == d
  {
    if newline == "\n" {
      var s := d + newline;
      assert s[..|s| - 1] == d;
    } else {
      assert d + newline == d;
    }
  }

  /** The tag text of a description, with or without git's trailing
      newline, trims to the description. */
  lemma DescriptionTrimmed(t: Tag, newline: string)
    requires newline == "" || newline == "\n"
    ensures Trim(TagText(Description(t) + newline)) == Description(t)
  {
    var d := Description(t);
    var a, c := IntToString(t.major), IntToString(t.patch);
    IntTextEnds(t.major);
    IntTextEnds(t.patch);
    assert d[0] == a[0];
    assert d[|d| - 1] == c[|c| - 1];
    TrimNewline(d, newline);
    assert TagText(d + newline) == d + newline;
  }

  /** The pieces of a description all read as integers: the tag's three parts. */
  lemma DescriptionInts(t: Tag)
    ensures IntParts(Description(t)) == [t.major, t.minor, t.patch]
  {
    var d := Description(t);
    assert Trim(d) == d by {
      DescriptionTrimmed(t, "");
      assert d + "" == d;
    }
    DescriptionSplits(t);
    IntsOfRendered(t.major, t.minor, t.patch);
  }

  /** The text of a tag, as git prints it with or without a trailing
      newline, reads back as the same tag, negative parts included. */
  lemma ParseDescription(t: Tag, newline: string)
    requires newline == "" || newline == "\n"
    ensures ParseTag(Description(t) + newline) == Some(t)
  {
    var d := Description(t);
    DescriptionTrimmed(t, newline);
    DescriptionInts(t);
    DescriptionTrimmed(t, "");
    assert d + "" == d;
    assert Trim(d) == d;
    assert IntParts(TagText(d + newline)) == IntsOf(Split(d, '.')) == IntParts(d);
  }
}
