/**
 * The clean-up of the OCR output in TCC.py (line 188):
 * `texto.strip().replace(" ", "").replace("\n", "")`.
 *
 * Python's `str.strip()` without arguments removes leading and trailing
 * characters for which `str.isspace()` holds; the two `replace` calls then
 * delete every space and every newline left inside. Other whitespace inside
 * the text (a tab, a carriage return) is kept.
 */
module PlateText {

  /** Python's `str.isspace()` for a single character. */
  predicate IsSpace(c: char) {
    || c == ' '
    || '\t' <= c <= '\r'                 // \t \n \v \f \r
    || '\U{1C}' <= c <= '\U{1F}'         // file, group, record and unit separators
    || c == '\U{85}' || c == '\U{A0}' || c == '\U{1680}'
    || '\U{2000}' <= c <= '\U{200A}'
    || c == '\U{2028}' || c == '\U{2029}' || c == '\U{202F}' || c == '\U{205F}' || c == '\U{3000}'
  }

  /** `s.lstrip()`: the longest suffix of `s` that does not start with whitespace. */
  function StripLeading(s: string): (r: string)
    ensures |r| <= |s| && r == s[|s| - |r|..]
    ensures forall i :: 0 <= i < |s| - |r| ==> IsSpace(s[i])
    ensures r != [] ==> !IsSpace(r[0])
  {
    if s != [] && IsSpace(s[0]) then StripLeading(s[1..]) else s
  }

  /** `s.rstrip()`: the longest prefix of `s` that does not end with whitespace. */
  function StripTrailing(s: string): (r: string)
    ensures |r| <= |s| && r == s[..|r|]
    ensures forall i :: |r| <= i < |s| ==> IsSpace(s[i])
    ensures r != [] ==> !IsSpace(r[|r| - 1])
  {
    if s != [] && IsSpace(s[|s| - 1]) then StripTrailing(s[..|s| - 1]) else s
  }

  /** `r` is `s[i..]` cut to its length, with only whitespace cut away on either side. */
  ghost predicate TrimOf(r: string, s: string, i: int) {
    && 0 <= i && i + |r| <= |s| && r == s[i..i + |r|]
    && (forall k :: 0 <= k < i ==> IsSpace(s[k]))
    && (forall k :: i + |r| <= k < |s| ==> IsSpace(s[k]))
  }

  /** `s.strip()`: the text between the leading and the trailing whitespace. */
  function Strip(s: string): (r: string)
    ensures r != [] ==> !IsSpace(r[0]) && !IsSpace(r[|r| - 1])
    ensures exists i :: TrimOf(r, s, i)
  {
    var l := StripLeading(s);
    var r := StripTrailing(l);
    TrimOfParts(s, l, r);
    r
  }

  /** Cutting leading whitespace, then trailing whitespace, trims the text. */
  lemma TrimOfParts(s: string, l: string, r: string)
    requires |l| <= |s| && l == s[|s| - |l|..]
    requires forall k :: 0 <= k < |s| - |l| ==> IsSpace(s[k])
    requires |r| <= |l| && r == l[..|r|]
    requires forall m :: |r| <= m < |l| ==> IsSpace(l[m])
    ensures TrimOf(r, s, |s| - |l|)
  {
    var i := |s| - |l|;
    assert r == s[i..i + |r|];
    forall k | i + |r| <= k < |s|
      ensures IsSpace(s[k])
    {
      assert s[k] == l[k - i];
    }
  }

  /** `s.replace(ch, "")`: every occurrence of `ch` deleted. */
  function Remove(s: string, ch: char): (r: string)
    ensures ch !in r
    ensures forall c :: c in r ==> c in s
  {
    if s == [] then []
    else (if s[0] == ch then [] else [s[0]]) + Remove(s[1..], ch)
  }

  /** The plate text compared against the authorised list. */
  function Normalize(raw: string): (plate: string)
    ensures ' ' !in plate && '\n' !in plate
  {
    Remove(Remove(Strip(raw), ' '), '\n')
  }

  // ---------------------------------------------------------------------
  // Auxiliary notions: order-preserving selection
  // ---------------------------------------------------------------------

  /** `a` is obtained from `b` by deleting characters, the rest kept in order. */
  predicate IsSubsequence(a: string, b: string)
    decreases |b|
  {
    || a == []
    || (b != [] && ((a[0] == b[0] && IsSubsequence(a[1..], b[1..])) || IsSubsequence(a, b[1..])))
  }

  /** The characters of `s` that are not whitespace, in order. */
  function NonSpace(s: string): (r: string)
    ensures forall i :: 0 <= i < |r| ==> !IsSpace(r[i])
  {
    if s == [] then []
    else (if IsSpace(s[0]) then [] else [s[0]]) + NonSpace(s[1..])
  }

  lemma {:induction false} SubsequenceTransitive(a: string, b: string, c: string)
    requires IsSubsequence(a, b) && IsSubsequence(b, c)
    ensures IsSubsequence(a, c)
    decreases |c|
  {
    if a != [] {
      if IsSubsequence(b, c[1..]) {
        SubsequenceTransitive(a, b, c[1..]);
      } else if a[0] == b[0] && IsSubsequence(a[1..], b[1..]) {
        SubsequenceTransitive(a[1..], b[1..], c[1..]);
      } else {
        SubsequenceTransitive(a, b[1..], c[1..]);
      }
    }
  }

  /** A prefix is a subsequence. */
  lemma {:induction false} PrefixIsSubsequence(s: string, j: nat)
    requires j <= |s|
    ensures IsSubsequence(s[..j], s)
  {
    if j > 0 {
      PrefixIsSubsequence(s[1..], j - 1);
      assert s[..j][1..] == s[1..][..j - 1];
    }
  }

  /** A suffix is a subsequence. */
  lemma {:induction false} SuffixIsSubsequence(s: string, i: nat)
    requires i <= |s|
    ensures IsSubsequence(s[i..], s)
  {
    if i == |s| {
    } else if i == 0 {
      PrefixIsSubsequence(s, |s|);
      assert s[..|s|] == s[0..];
    } else {
      SuffixIsSubsequence(s[1..], i - 1);
      assert s[1..][i - 1..] == s[i..];
    }
  }

  lemma {:induction false} RemoveIsSubsequence(s: string, ch: char)
    ensures IsSubsequence(Remove(s, ch), s)
  {
    if s != [] {
      RemoveIsSubsequence(s[1..], ch);
      var r := Remove(s, ch);
      if s[0] != ch {
        assert r[0] == s[0] && r[1..] == Remove(s[1..], ch);
      } else {
        assert r == Remove(s[1..], ch);
      }
    }
  }

  lemma {:induction false} StripIsSubsequence(s: string)
    ensures IsSubsequence(Strip(s), s)
  {
    var l := StripLeading(s);
    SuffixIsSubsequence(s, |s| - |l|);
    PrefixIsSubsequence(l, |StripTrailing(l)|);
    SubsequenceTransitive(Strip(s), l, s);
  }

  // ---------------------------------------------------------------------
  // Properties of Remove, Strip and NonSpace
  // ---------------------------------------------------------------------

  lemma {:induction false} RemoveAppend(a: string, b: string, ch: char)
    ensures Remove(a + b, ch) == Remove(a, ch) + Remove(b, ch)
  {
    if a != [] {
      assert (a + b)[0] == a[0] && (a + b)[1..] == a[1..] + b;
      RemoveAppend(a[1..], b, ch);
      assert Remove(a + b, ch) == (if a[0] == ch then [] else [a[0]]) + Remove(a[1..] + b, ch);
    } else {
      assert a + b == b;
    }
  }

  /** Removing a character that does not occur changes nothing. */
  lemma {:induction false} RemoveAbsent(s: string, ch: char)
    requires ch !in s
    ensures Remove(s, ch) == s
  {
    if s != [] {
      RemoveAbsent(s[1..], ch);
    }
  }

  /** Removal keeps a first and a last character that are not the removed one. */
  lemma RemoveKeepsEnds(s: string, ch: char)
    requires s != [] && s[0] != ch && s[|s| - 1] != ch
    ensures Remove(s, ch) != []
    ensures Remove(s, ch)[0] == s[0]
    ensures Remove(s, ch)[|Remove(s, ch)| - 1] == s[|s| - 1]
  {
    assert s == s[..|s| - 1] + [s[|s| - 1]];
    RemoveAppend(s[..|s| - 1], [s[|s| - 1]], ch);
  }

  lemma {:induction false} NonSpaceAppend(a: string, b: string)
    ensures NonSpace(a + b) == NonSpace(a) + NonSpace(b)
  {
    if a != [] {
      assert (a + b)[0] == a[0] && (a + b)[1..] == a[1..] + b;
      NonSpaceAppend(a[1..], b);
      assert NonSpace(a + b) == (if IsSpace(a[0]) then [] else [a[0]]) + NonSpace(a[1..] + b);
    } else {
      assert a + b == b;
    }
  }

  /** Deleting a whitespace character loses no other character. */
  lemma {:induction false} RemoveSpaceKeepsNonSpace(s: string, ch: char)
    requires IsSpace(ch)
    ensures NonSpace(Remove(s, ch)) == NonSpace(s)
  {
    if s != [] {
      RemoveSpaceKeepsNonSpace(s[1..], ch);
      NonSpaceAppend(if s[0] == ch then [] else [s[0]], Remove(s[1..], ch));
    }
  }

  lemma {:induction false} NonSpaceOfSpaces(s: string)
    requires forall i :: 0 <= i < |s| ==> IsSpace(s[i])
    ensures NonSpace(s) == []
  {
    if s != [] {
      NonSpaceOfSpaces(s[1..]);
    }
  }

  /** Dropping a run of leading whitespace loses no other character. */
  lemma {:induction false} DropLeadingSpaces(s: string, i: nat)
    requires i <= |s| && forall k :: 0 <= k < i ==> IsSpace(s[k])
    ensures NonSpace(s[i..]) == NonSpace(s)
  {
    if i > 0 {
      assert IsSpace(s[0]);
      assert s[1..][i - 1..] == s[i..];
      DropLeadingSpaces(s[1..], i - 1);
    } else {
      assert s[i..] == s;
    }
  }

  /** Dropping a run of trailing whitespace loses no other character. */
  lemma {:induction false} DropTrailingSpaces(s: string, j: nat)
    requires j <= |s| && forall k :: j <= k < |s| ==> IsSpace(s[k])
    ensures NonSpace(s[..j]) == NonSpace(s)
    decreases |s| - j
  {
    if j < |s| {
      var init := s[..|s| - 1];
      assert init[..j] == s[..j];
      DropTrailingSpaces(init, j);
      assert s == init + [s[|s| - 1]];
      NonSpaceAppend(init, [s[|s| - 1]]);
      assert NonSpace([s[|s| - 1]]) == [];
    } else {
      assert s[..j] == s;
    }
  }

  /** Stripping loses no character other than whitespace. */
  lemma StripKeepsNonSpace(s: string)
    ensures NonSpace(Strip(s)) == NonSpace(s)
  {
    var l := StripLeading(s);
    DropLeadingSpaces(s, |s| - |l|);
    DropTrailingSpaces(l, |StripTrailing(l)|);
  }

  // ---------------------------------------------------------------------
  // Properties of Normalize
  // ---------------------------------------------------------------------

  /** The normalised text neither starts nor ends with whitespace. */
  lemma NormalizeIsTrimmed(raw: string)
    ensures var plate := Normalize(raw);
            plate != [] ==> !IsSpace(plate[0]) && !IsSpace(plate[|plate| - 1])
  {
    var s := Strip(raw);
    if s != [] {
      RemoveKeepsEnds(s, ' ');
      RemoveKeepsEnds(Remove(s, ' '), '\n');
    }
  }

  /** Every character of the normalised text comes from the raw text, in order. */
  lemma NormalizeKeepsOrder(raw: string)
    ensures IsSubsequence(Normalize(raw), raw)
  {
    var s := Strip(raw);
    StripIsSubsequence(raw);
    RemoveIsSubsequence(s, ' ');
    RemoveIsSubsequence(Remove(s, ' '), '\n');
    SubsequenceTransitive(Remove(s, ' '), s, raw);
    SubsequenceTransitive(Normalize(raw), Remove(s, ' '), raw);
  }

  /** Every non-whitespace character of the raw text survives, in order. */
  lemma NormalizeKeepsNonSpace(raw: string)
    ensures NonSpace(Normalize(raw)) == NonSpace(raw)
  {
    var s := Strip(raw);
    StripKeepsNonSpace(raw);
    RemoveSpaceKeepsNonSpace(s, ' ');
    RemoveSpaceKeepsNonSpace(Remove(s, ' '), '\n');
  }

  /** Normalising twice is normalising once. */
  lemma NormalizeIdempotent(raw: string)
    ensures Normalize(Normalize(raw)) == Normalize(raw)
  {
    var plate := Normalize(raw);
    NormalizeIsTrimmed(raw);
    assert StripLeading(plate) == plate;
    assert StripTrailing(plate) == plate;
    RemoveAbsent(plate, ' ');
    RemoveAbsent(plate, '\n');
  }

  /** Text without any whitespace comes through unchanged. */
  lemma NormalizeLeavesCleanText(s: string)
    requires forall i :: 0 <= i < |s| ==> !IsSpace(s[i])
    ensures Normalize(s) == s
  {
    assert StripLeading(s) == s;
    assert StripTrailing(s) == s;
    RemoveAbsent(s, ' ');
    RemoveAbsent(s, '\n');
  }

  /** `replace(ch, "")` keeps every occurrence of every other character. */
  lemma {:induction false} RemoveKeepsOthers(s: string, ch: char, c: char)
    requires c != ch
    ensures multiset(Remove(s, ch))[c] == multiset(s)[c]
  {
    if s != [] {
      assert s == [s[0]] + s[1..];
      RemoveKeepsOthers(s[1..], ch, c);
    }
  }

  /**
   * After stripping, only spaces and newlines are deleted: every other
   * character, whitespace such as a tab or a carriage return included,
   * occurs in the plate text as often as in the stripped text.
   */
  lemma NormalizeKeepsOthers(raw: string, c: char)
    requires c != ' ' && c != '\n'
    ensures multiset(Normalize(raw))[c] == multiset(Strip(raw))[c]
  {
    RemoveKeepsOthers(Strip(raw), ' ', c);
    RemoveKeepsOthers(Remove(Strip(raw), ' '), '\n', c);
  }

  /**
   * Whitespace other than spaces and newlines survives inside the text: a
   * text without spaces and newlines whose ends are not whitespace comes
   * through unchanged, whatever tabs or carriage returns it holds inside.
   */
  lemma InnerWhitespaceIsKept(s: string)
    requires ' ' !in s && '\n' !in s
    requires s != [] ==> !IsSpace(s[0]) && !IsSpace(s[|s| - 1])
    ensures Normalize(s) == s
  {
    assert StripLeading(s) == s;
    assert StripTrailing(s) == s;
    RemoveAbsent(s, ' ');
    RemoveAbsent(s, '\n');
  }
}
