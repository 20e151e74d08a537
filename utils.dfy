/**
 * The helpers of src/lib/utils.ts: pagination arithmetic, slug generation,
 * text truncation, discount calculation and the e-mail shape test.
 *
 * JavaScript strings are modelled as `string` (a sequence of characters);
 * numbers as `int` where the source only ever has whole values and as `real`
 * for money.
 */
module Utils {
  import opened Wrappers

  // ---------------------------------------------------------------------
  // Pagination (getPaginationInfo)
  // ---------------------------------------------------------------------

  datatype PaginationInfo = PaginationInfo(
    currentPage: int,
    perPage: int,
    totalCount: nat,
    totalPages: nat,
    hasNextPage: bool,
    hasPreviousPage: bool)

  /** Math.ceil(n / d): the least k with n <= k * d. */
  function CeilDiv(n: nat, d: int): (k: nat)
    requires d >= 1
    ensures (k - 1) * d < n <= k * d
  {
    var k := (n + d - 1) / d;
    assert n + d - 1 == k * d + (n + d - 1) % d;
    assert (k - 1) * d == k * d - d;
    k
  }

  /** getPaginationInfo: the page metadata for `totalCount` rows shown `perPage` at a time. */
  function GetPaginationInfo(totalCount: nat, page: int, perPage: int): (info: PaginationInfo)
    requires perPage >= 1
    ensures info.currentPage == page && info.perPage == perPage && info.totalCount == totalCount
    ensures (info.totalPages - 1) * perPage < totalCount <= info.totalPages * perPage
    ensures info.totalPages == 0 <==> totalCount == 0
    ensures info.hasNextPage <==> page < info.totalPages
    ensures info.hasPreviousPage <==> page > 1
  {
    var totalPages := CeilDiv(totalCount, perPage);
    PaginationInfo(page, perPage, totalCount, totalPages, page < totalPages, page > 1)
  }

  /** The page (from 1) that shows row `i` (from 0) when each page holds perPage rows. */
  function PageOfRow(i: nat, perPage: int): (page: int)
    requires perPage >= 1
    ensures page >= 1
    ensures (page - 1) * perPage <= i < page * perPage
  {
    var q := i / perPage;
    assert i == q * perPage + i % perPage;
    assert (q + 1) * perPage == q * perPage + perPage;
    q + 1
  }

  /** Every row lies on a page between 1 and totalPages. */
  lemma RowOnSomePage(totalCount: nat, perPage: int, i: nat)
    requires perPage >= 1 && i < totalCount
    ensures PageOfRow(i, perPage) <= GetPaginationInfo(totalCount, 1, perPage).totalPages
  {
    var k := GetPaginationInfo(totalCount, 1, perPage).totalPages;
    var page := PageOfRow(i, perPage);
    if page - 1 >= k {
      MulMonotone(page - 1, k, perPage);
      assert false;
    }
  }

  lemma MulMonotone(a: int, b: int, c: nat)
    requires a >= b
    ensures a * c >= b * c
  {
    var d := a - b;
    assert a * c == b * c + d * c;
  }

  // ---------------------------------------------------------------------
  // Characters and trimming
  // ---------------------------------------------------------------------

  /**
   * The characters that String.prototype.trim removes and that the regular
   * expression class \s matches: the ECMAScript WhiteSpace and LineTerminator
   * code points.
   */
  predicate IsWhitespace(c: char) {
    || c == '\t' || c == '\n' || c == '\U{000B}' || c == '\U{000C}' || c == '\r' || c == ' '
    || c == '\U{00A0}' || c == '\U{1680}' || ('\U{2000}' <= c <= '\U{200A}')
    || c == '\U{2028}' || c == '\U{2029}' || c == '\U{202F}' || c == '\U{205F}'
    || c == '\U{3000}' || c == '\U{FEFF}'
  }

  predicate AllWhitespace(s: string) {
    forall i | 0 <= i < |s| :: IsWhitespace(s[i])
  }

  function TrimStart(s: string): (r: string)
    ensures |r| <= |s| && r == s[|s| - |r|..]
    ensures AllWhitespace(s[..|s| - |r|])
    ensures r != [] ==> !IsWhitespace(r[0])
  {
    if s != [] && IsWhitespace(s[0]) then
      var t := s[1..];
      var r := TrimStart(t);
      assert t[|t| - |r|..] == s[|s| - |r|..];
      assert s[..|s| - |r|] == [s[0]] + t[..|t| - |r|];
      r
    else s
  }

  function TrimEnd(s: string): (r: string)
    ensures |r| <= |s| && r == s[..|r|]
    ensures AllWhitespace(s[|r|..])
    ensures r != [] ==> !IsWhitespace(r[|r| - 1])
  {
    if s != [] && IsWhitespace(s[|s| - 1]) then
      var r := TrimEnd(s[..|s| - 1]);
      assert s[|r|..] == s[..|s| - 1][|r|..] + [s[|s| - 1]];
      r
    else s
  }

  /** `t` is `s` with its leading and trailing white space removed. */
  ghost predicate IsTrimOf(s: string, t: string) {
    exists a | 0 <= a <= |s| - |t| ::
      && t == s[a..a + |t|]
      && AllWhitespace(s[..a])
      && AllWhitespace(s[a + |t|..])
      && (t != [] ==> !IsWhitespace(t[0]) && !IsWhitespace(t[|t| - 1]))
  }

  /** String.prototype.trim */
  function Trim(s: string): (r: string)
    ensures IsTrimOf(s, r)
    ensures forall c :: c in r ==> c in s
  {
    TrimStartOfTrimEnd(s);
    TrimStart(TrimEnd(s))
  }

  lemma TrimStartOfTrimEnd(s: string)
    ensures IsTrimOf(s, TrimStart(TrimEnd(s)))
    ensures forall c :: c in TrimStart(TrimEnd(s)) ==> c in s
  {
    var e := TrimEnd(s);
    var r := TrimStart(e);
    assert |e| <= |s| && e == s[..|e|] && AllWhitespace(s[|e|..]);
    assert |r| <= |e| && r == e[|e| - |r|..] && AllWhitespace(e[..|e| - |r|]);
    TrimBothEnds(s, e, r);
  }

  /** Cutting white space from the end of `s` (giving `e`) and then from the start (giving `r`) trims `s`. */
  lemma TrimBothEnds(s: string, e: string, r: string)
    requires |e| <= |s| && e == s[..|e|] && AllWhitespace(s[|e|..])
    requires e != [] ==> !IsWhitespace(e[|e| - 1])
    requires |r| <= |e| && r == e[|e| - |r|..] && AllWhitespace(e[..|e| - |r|])
    requires r != [] ==> !IsWhitespace(r[0])
    ensures IsTrimOf(s, r)
    ensures forall c :: c in r ==> c in s
  {
    var a := |e| - |r|;
    assert r == s[a..a + |r|];
    assert s[..a] == e[..a];
    assert s[a + |r|..] == s[|e|..];
    assert r != [] ==> r[|r| - 1] == e[|e| - 1];
    assert 0 <= a <= |s| - |r|
      && r == s[a..a + |r|]
      && AllWhitespace(s[..a])
      && AllWhitespace(s[a + |r|..])
      && (r != [] ==> !IsWhitespace(r[0]) && !IsWhitespace(r[|r| - 1]));
    forall c | c in r ensures c in s {
      var i :| 0 <= i < |r| && r[i] == c;
      assert s[a + i] == c;
    }
  }

  // ---------------------------------------------------------------------
  // Slugs (generateSlug)
  // ---------------------------------------------------------------------

  /** String.prototype.toLowerCase on one character, for the ASCII letters. */
  function ToLowerAscii(c: char): char {
    if 'A' <= c <= 'Z' then (c as int + 32) as char else c
  }

  function ToLowerCase(s: string): (r: string)
    ensures |r| == |s|
    ensures forall i | 0 <= i < |s| :: r[i] == ToLowerAscii(s[i])
    ensures forall c :: c in r ==> !IsUpperAscii(c)
  {
    seq(|s|, i requires 0 <= i < |s| => ToLowerAscii(s[i]))
  }

  predicate IsUpperAscii(c: char) {
    'A' <= c <= 'Z'
  }

  /** \w without the u flag: [A-Za-z0-9_] */
  predicate IsWordChar(c: char) {
    'a' <= c <= 'z' || 'A' <= c <= 'Z' || '0' <= c <= '9' || c == '_'
  }

  /** The characters the class [\w\s-] lets through. */
  predicate IsKept(c: char) {
    IsWordChar(c) || IsWhitespace(c) || c == '-'
  }

  /** The class [\s_-] */
  predicate IsSeparator(c: char) {
    IsWhitespace(c) || c == '_' || c == '-'
  }

  predicate IsSlugChar(c: char) {
    'a' <= c <= 'z' || '0' <= c <= '9' || c == '-'
  }

  predicate NoDoubleHyphen(s: string) {
    forall i | 0 <= i < |s| - 1 :: !(s[i] == '-' && s[i + 1] == '-')
  }

  /** Only [a-z0-9-], no "--", and no '-' at either end. */
  predicate IsSlug(s: string) {
    && (forall i | 0 <= i < |s| :: IsSlugChar(s[i]))
    && NoDoubleHyphen(s)
    && (s != [] ==> s[0] != '-' && s[|s| - 1] != '-')
  }

  /** .replace(/[^\w\s-]/g, '') */
  function RemoveDisallowed(s: string): (r: string)
    ensures forall c :: c in r ==> c in s && IsKept(c)
  {
    if s == [] then []
    else (if IsKept(s[0]) then [s[0]] else []) + RemoveDisallowed(s[1..])
  }

  /**
   * .replace(/[\s_-]+/g, '-'): every maximal run of separators becomes one '-'.
   * The '-' is emitted at the last separator of each run.
   */
  function CollapseSeparators(s: string): (r: string)
    ensures forall c :: c in r ==> c == '-' || (c in s && !IsSeparator(c))
    ensures NoDoubleHyphen(r)
    ensures s != [] && !IsSeparator(s[0]) ==> r != [] && r[0] == s[0]
  {
    if s == [] then []
    else if IsSeparator(s[0]) then
      if |s| > 1 && IsSeparator(s[1]) then CollapseSeparators(s[1..])
      else "-" + CollapseSeparators(s[1..])
    else [s[0]] + CollapseSeparators(s[1..])
  }

  /** Removal works character by character: it distributes over concatenation. */
  lemma {:induction false} RemoveDisallowedConcat(a: string, b: string)
    ensures RemoveDisallowed(a + b) == RemoveDisallowed(a) + RemoveDisallowed(b)
  {
    if a == [] {
      assert a + b == b;
    } else {
      var h := if IsKept(a[0]) then [a[0]] else [];
      assert (a + b)[0] == a[0] && (a + b)[1..] == a[1..] + b;
      RemoveDisallowedConcat(a[1..], b);
      calc {
        RemoveDisallowed(a + b);
        h + RemoveDisallowed(a[1..] + b);
        h + (RemoveDisallowed(a[1..]) + RemoveDisallowed(b));
        (h + RemoveDisallowed(a[1..])) + RemoveDisallowed(b);
        RemoveDisallowed(a) + RemoveDisallowed(b);
      }
    }
  }

  /** A character of [\w\s-] survives in its place; any other character is removed. */
  lemma RemoveDisallowedAround(a: string, c: char, b: string)
    ensures RemoveDisallowed(a + [c] + b)
         == RemoveDisallowed(a) + (if IsKept(c) then [c] else []) + RemoveDisallowed(b)
  {
    var m := if IsKept(c) then [c] else [];
    assert RemoveDisallowed([c]) == m by {
      assert [c][0] == c && [c][1..] == [];
    }
    RemoveDisallowedConcat(a + [c], b);
    RemoveDisallowedConcat(a, [c]);
    calc {
      RemoveDisallowed(a + [c] + b);
      RemoveDisallowed(a + [c]) + RemoveDisallowed(b);
      (RemoveDisallowed(a) + RemoveDisallowed([c])) + RemoveDisallowed(b);
      RemoveDisallowed(a) + m + RemoveDisallowed(b);
    }
  }

  /** Collapsing works piece by piece across a boundary that does not split a run of separators. */
  lemma {:induction false} CollapseConcat(x: string, y: string)
    requires x == [] || !IsSeparator(x[|x| - 1])
    ensures CollapseSeparators(x + y) == CollapseSeparators(x) + CollapseSeparators(y)
  {
    if x == [] {
      assert x + y == y;
    } else {
      var t := x[1..];
      assert t != [] ==> t[|t| - 1] == x[|x| - 1];
      CollapseConcat(t, y);
      CollapseConcatStep(x, y);
    }
  }

  /** One step of CollapseConcat: the boundary property moves from the tail to the whole. */
  lemma CollapseConcatStep(x: string, y: string)
    requires x != [] && !IsSeparator(x[|x| - 1])
    requires CollapseSeparators(x[1..] + y) == CollapseSeparators(x[1..]) + CollapseSeparators(y)
    ensures CollapseSeparators(x + y) == CollapseSeparators(x) + CollapseSeparators(y)
  {
    var xy := x + y;
    assert xy[0] == x[0] && xy[1..] == x[1..] + y;
    if !IsSeparator(x[0]) {
      KeptHeadStep(x, y, xy);
    } else if IsSeparator(x[1]) {
      SkipHeadStep(x, y, xy);
    } else {
      SeparatorHeadStep(x, y, xy);
    }
  }

  lemma KeptHeadStep(x: string, y: string, xy: string)
    requires x != [] && !IsSeparator(x[0])
    requires xy != [] && xy[0] == x[0] && xy[1..] == x[1..] + y
    requires CollapseSeparators(x[1..] + y) == CollapseSeparators(x[1..]) + CollapseSeparators(y)
    ensures CollapseSeparators(xy) == CollapseSeparators(x) + CollapseSeparators(y)
  {
    var ct, cy := CollapseSeparators(x[1..]), CollapseSeparators(y);
    assert CollapseSeparators(xy) == [x[0]] + (ct + cy);
    assert [x[0]] + (ct + cy) == ([x[0]] + ct) + cy;
  }

  lemma SkipHeadStep(x: string, y: string, xy: string)
    requires |x| > 1 && IsSeparator(x[0]) && IsSeparator(x[1])
    requires |xy| > 1 && xy[0] == x[0] && xy[1] == x[1] && xy[1..] == x[1..] + y
    requires CollapseSeparators(x[1..] + y) == CollapseSeparators(x[1..]) + CollapseSeparators(y)
    ensures CollapseSeparators(xy) == CollapseSeparators(x) + CollapseSeparators(y)
  {
    assert CollapseSeparators(xy) == CollapseSeparators(xy[1..]);
  }

  lemma SeparatorHeadStep(x: string, y: string, xy: string)
    requires |x| > 1 && IsSeparator(x[0]) && !IsSeparator(x[1])
    requires |xy| > 1 && xy[0] == x[0] && xy[1] == x[1] && xy[1..] == x[1..] + y
    requires CollapseSeparators(x[1..] + y) == CollapseSeparators(x[1..]) + CollapseSeparators(y)
    ensures CollapseSeparators(xy) == CollapseSeparators(x) + CollapseSeparators(y)
  {
    var ct, cy := CollapseSeparators(x[1..]), CollapseSeparators(y);
    assert CollapseSeparators(xy) == "-" + (ct + cy);
    assert "-" + (ct + cy) == ("-" + ct) + cy;
  }

  /** A maximal run of separators becomes exactly one '-'. */
  lemma {:induction false} CollapseRun(run: string, y: string)
    requires run != [] && forall i | 0 <= i < |run| :: IsSeparator(run[i])
    requires y == [] || !IsSeparator(y[0])
    ensures CollapseSeparators(run + y) == "-" + CollapseSeparators(y)
  {
    var t := run[1..];
    assert (run + y)[0] == run[0] && (run + y)[1..] == t + y;
    if t == [] {
      assert t + y == y;
      assert |run + y| > 1 ==> (run + y)[1] == y[0];
    } else {
      assert (run + y)[1] == t[0];
      CollapseRun(t, y);
    }
  }

  /** Between two pieces of text, a run of separators turns into a single '-'. */
  lemma CollapseSplitsAtRun(x: string, run: string, y: string)
    requires x == [] || !IsSeparator(x[|x| - 1])
    requires run != [] && forall i | 0 <= i < |run| :: IsSeparator(run[i])
    requires y == [] || !IsSeparator(y[0])
    ensures CollapseSeparators(x + (run + y)) == CollapseSeparators(x) + ("-" + CollapseSeparators(y))
  {
    CollapseConcat(x, run + y);
    CollapseRun(run, y);
  }

  function DropLeadingHyphens(s: string): (r: string)
    ensures |r| <= |s| && r == s[|s| - |r|..]
    ensures forall i | 0 <= i < |s| - |r| :: s[i] == '-'
    ensures r != [] ==> r[0] != '-'
  {
    if s != [] && s[0] == '-' then DropLeadingHyphens(s[1..]) else s
  }

  function DropTrailingHyphens(s: string): (r: string)
    ensures |r| <= |s| && r == s[..|r|]
    ensures forall i | |r| <= i < |s| :: s[i] == '-'
    ensures r != [] ==> r[|r| - 1] != '-'
  {
    if s != [] && s[|s| - 1] == '-' then DropTrailingHyphens(s[..|s| - 1]) else s
  }

  predicate AllHyphens(s: string) {
    forall i | 0 <= i < |s| :: s[i] == '-'
  }

  /** `t` is `s` with its leading and trailing runs of '-' removed. */
  ghost predicate IsHyphenStripOf(s: string, t: string) {
    exists a | 0 <= a <= |s| - |t| ::
      && t == s[a..a + |t|]
      && AllHyphens(s[..a])
      && AllHyphens(s[a + |t|..])
      && (t != [] ==> t[0] != '-' && t[|t| - 1] != '-')
  }

  /** .replace(/^-+|-+$/g, '') */
  function StripEdgeHyphens(s: string): (r: string)
    ensures IsHyphenStripOf(s, r)
    ensures forall c :: c in r ==> c in s
    ensures NoDoubleHyphen(s) ==> NoDoubleHyphen(r)
    ensures r != [] ==> r[0] != '-' && r[|r| - 1] != '-'
  {
    DropBothKeeps(s);
    DropBothStrips(s);
    DropTrailingHyphens(DropLeadingHyphens(s))
  }

  lemma DropBothStrips(s: string)
    ensures IsHyphenStripOf(s, DropTrailingHyphens(DropLeadingHyphens(s)))
  {
    var d := DropLeadingHyphens(s);
    StripBothEnds(s, d, DropTrailingHyphens(d));
  }

  /** Cutting the leading '-' run of `s` (giving `d`) and then the trailing one (giving `r`) strips `s`. */
  lemma StripBothEnds(s: string, d: string, r: string)
    requires |d| <= |s| && d == s[|s| - |d|..] && forall i | 0 <= i < |s| - |d| :: s[i] == '-'
    requires d != [] ==> d[0] != '-'
    requires |r| <= |d| && r == d[..|r|] && forall i | |r| <= i < |d| :: d[i] == '-'
    requires r != [] ==> r[|r| - 1] != '-'
    ensures IsHyphenStripOf(s, r)
  {
    var a := |s| - |d|;
    assert r == s[a..a + |r|];
    var front, back := s[..a], s[a + |r|..];
    forall i | 0 <= i < |front| ensures front[i] == '-' {
      assert front[i] == s[i];
    }
    forall i | 0 <= i < |back| ensures back[i] == '-' {
      assert back[i] == d[|r| + i];
    }
    assert r != [] ==> r[0] == d[0];
    assert 0 <= a <= |s| - |r|
      && r == s[a..a + |r|]
      && AllHyphens(s[..a])
      && AllHyphens(s[a + |r|..])
      && (r != [] ==> r[0] != '-' && r[|r| - 1] != '-');
  }

  lemma DropBothKeeps(s: string)
    ensures var r := DropTrailingHyphens(DropLeadingHyphens(s));
      && (forall c :: c in r ==> c in s)
      && (NoDoubleHyphen(s) ==> NoDoubleHyphen(r))
  {
    var d := DropLeadingHyphens(s);
    var r := DropTrailingHyphens(d);
    SliceKeeps(s, |s| - |d|, d);
    SliceKeeps(d, 0, r);
  }

  /** A contiguous piece of `s` holds only characters of `s` and inherits its lack of "--". */
  lemma SliceKeeps(s: string, k: nat, r: string)
    requires k + |r| <= |s| && r == s[k..k + |r|]
    ensures forall c :: c in r ==> c in s
    ensures NoDoubleHyphen(s) ==> NoDoubleHyphen(r)
  {
    forall c | c in r ensures c in s {
      var i :| 0 <= i < |r| && r[i] == c;
      assert s[k + i] == c;
    }
    if NoDoubleHyphen(s) {
      forall i | 0 <= i < |r| - 1 ensures !(r[i] == '-' && r[i + 1] == '-') {
        assert r[i] == s[k + i] && r[i + 1] == s[k + i + 1];
      }
    }
  }

  /** generateSlug: lower-case, trim, drop disallowed characters, collapse separators, strip edge hyphens. */
  function GenerateSlug(text: string): (slug: string)
    ensures IsSlug(slug)
  {
    var lowered := ToLowerCase(text);
    var trimmed := Trim(lowered);
    var kept := RemoveDisallowed(trimmed);
    var collapsed := CollapseSeparators(kept);
    var slug := StripEdgeHyphens(collapsed);
    SlugStepsKeepSlugChars(lowered, trimmed, kept, collapsed, slug);
    slug
  }

  /** Each step of generateSlug passes on only characters that the later steps turn into [a-z0-9-]. */
  lemma SlugStepsKeepSlugChars(lowered: string, trimmed: string, kept: string, collapsed: string, slug: string)
    requires forall c :: c in lowered ==> !IsUpperAscii(c)
    requires forall c :: c in trimmed ==> c in lowered
    requires forall c :: c in kept ==> c in trimmed && IsKept(c)
    requires forall c :: c in collapsed ==> c == '-' || (c in kept && !IsSeparator(c))
    requires forall c :: c in slug ==> c in collapsed
    ensures forall i | 0 <= i < |slug| :: IsSlugChar(slug[i])
  {
    forall i | 0 <= i < |slug| ensures IsSlugChar(slug[i]) {
      var c := slug[i];
      assert c in slug;
      if c != '-' {
        assert c in kept && !IsSeparator(c);
        assert IsKept(c) && !IsUpperAscii(c);
      }
    }
  }

  lemma LowerCaseFixesSlug(s: string)
    requires IsSlug(s)
    ensures ToLowerCase(s) == s
  {
  }

  lemma {:induction false} RemoveDisallowedFixesSlug(s: string)
    requires IsSlug(s)
    ensures RemoveDisallowed(s) == s
  {
    if s != [] {
      assert IsSlugChar(s[0]);
      if |s| > 1 {
        RemoveDisallowedFixesSuffix(s, 1);
      }
    }
  }

  lemma {:induction false} RemoveDisallowedFixesSuffix(s: string, k: nat)
    requires IsSlug(s) && k <= |s|
    ensures RemoveDisallowed(s[k..]) == s[k..]
    decreases |s| - k
  {
    if k < |s| {
      assert IsSlugChar(s[k]);
      assert s[k..][1..] == s[k + 1..];
      RemoveDisallowedFixesSuffix(s, k + 1);
    }
  }

  /** On text whose only separator is '-' and that has no "--", collapsing separators changes nothing. */
  lemma {:induction false} CollapseFixes(s: string)
    requires forall i | 0 <= i < |s| :: !IsWhitespace(s[i]) && s[i] != '_'
    requires NoDoubleHyphen(s)
    ensures CollapseSeparators(s) == s
  {
    if s != [] {
      var t := s[1..];
      assert forall i | 0 <= i < |t| :: t[i] == s[i + 1];
      assert NoDoubleHyphen(t);
      CollapseFixes(t);
      assert s == [s[0]] + t;
      if s[0] == '-' {
        if |s| > 1 {
          assert s[1] == t[0];
          assert !IsSeparator(s[1]);
        }
        assert CollapseSeparators(s) == "-" + CollapseSeparators(t);
      } else {
        assert !IsSeparator(s[0]);
        assert CollapseSeparators(s) == [s[0]] + CollapseSeparators(t);
      }
    }
  }

  lemma TrimFixesSlug(s: string)
    requires IsSlug(s)
    ensures Trim(s) == s
  {
    if s != [] {
      SlugCharIsNotWhitespace(s[|s| - 1]);
      SlugCharIsNotWhitespace(s[0]);
    }
    TrimEndKeeps(s);
    TrimStartKeeps(s);
  }

  lemma SlugCharIsNotWhitespace(c: char)
    requires IsSlugChar(c)
    ensures !IsWhitespace(c)
  {
  }

  lemma TrimEndKeeps(s: string)
    requires s != [] ==> !IsWhitespace(s[|s| - 1])
    ensures TrimEnd(s) == s
  {
  }

  lemma TrimStartKeeps(s: string)
    requires s != [] ==> !IsWhitespace(s[0])
    ensures TrimStart(s) == s
  {
  }

  lemma StripEdgeFixesSlug(s: string)
    requires IsSlug(s)
    ensures StripEdgeHyphens(s) == s
  {
    assert DropLeadingHyphens(s) == s;
    assert DropTrailingHyphens(s) == s;
  }

  lemma SlugHasOnlyHyphenSeparators(s: string)
    requires IsSlug(s)
    ensures forall i | 0 <= i < |s| :: !IsWhitespace(s[i]) && s[i] != '_'
  {
    forall i | 0 <= i < |s| ensures !IsWhitespace(s[i]) && s[i] != '_' {
      SlugCharIsNotWhitespace(s[i]);
    }
  }

  /** A slug is a fixed point of generateSlug. */
  lemma SlugIsFixedPoint(s: string)
    requires IsSlug(s)
    ensures GenerateSlug(s) == s
  {
    LowerCaseFixesSlug(s);
    TrimFixesSlug(s);
    RemoveDisallowedFixesSlug(s);
    SlugHasOnlyHyphenSeparators(s);
    CollapseFixes(s);
    StripEdgeFixesSlug(s);
    assert StripEdgeHyphens(CollapseSeparators(RemoveDisallowed(Trim(ToLowerCase(s))))) == s;
  }

  /** generateSlug is idempotent. */
  lemma GenerateSlugIdempotent(text: string)
    ensures GenerateSlug(GenerateSlug(text)) == GenerateSlug(text)
  {
    SlugIsFixedPoint(GenerateSlug(text));
  }

  predicate IsLetterOrDigit(c: char) {
    'a' <= c <= 'z' || '0' <= c <= '9'
  }

  /** The lower-case letters and digits of `s`, in order. */
  function LettersAndDigits(s: string): string {
    if s == [] then [] else (if IsLetterOrDigit(s[0]) then [s[0]] else []) + LettersAndDigits(s[1..])
  }

  lemma {:induction false} LettersAndDigitsConcat(a: string, b: string)
    ensures LettersAndDigits(a + b) == LettersAndDigits(a) + LettersAndDigits(b)
  {
    if a == [] {
      assert a + b == b;
    } else {
      var h := if IsLetterOrDigit(a[0]) then [a[0]] else [];
      assert (a + b)[0] == a[0] && (a + b)[1..] == a[1..] + b;
      LettersAndDigitsConcat(a[1..], b);
      calc {
        LettersAndDigits(a + b);
        h + LettersAndDigits(a[1..] + b);
        h + (LettersAndDigits(a[1..]) + LettersAndDigits(b));
        (h + LettersAndDigits(a[1..])) + LettersAndDigits(b);
        LettersAndDigits(a) + LettersAndDigits(b);
      }
    }
  }

  /** Dropping the last character, which is neither letter nor digit, keeps the letters and digits. */
  lemma LettersAndDigitsDropLast(s: string)
    requires s != [] && !IsLetterOrDigit(s[|s| - 1])
    ensures LettersAndDigits(s[..|s| - 1]) == LettersAndDigits(s)
  {
    assert s == s[..|s| - 1] + [s[|s| - 1]];
    LettersAndDigitsConcat(s[..|s| - 1], [s[|s| - 1]]);
  }

  lemma {:induction false} TrimStartKeepsLetters(s: string)
    ensures LettersAndDigits(TrimStart(s)) == LettersAndDigits(s)
  {
    if s != [] && IsWhitespace(s[0]) {
      assert !IsLetterOrDigit(s[0]);
      assert LettersAndDigits(s) == LettersAndDigits(s[1..]);
      TrimStartKeepsLetters(s[1..]);
    }
  }

  lemma {:induction false} TrimEndKeepsLetters(s: string)
    ensures LettersAndDigits(TrimEnd(s)) == LettersAndDigits(s)
  {
    if s != [] && IsWhitespace(s[|s| - 1]) {
      TrimEndKeepsLetters(s[..|s| - 1]);
      LettersAndDigitsDropLast(s);
    }
  }

  lemma {:induction false} RemoveDisallowedKeepsLetters(s: string)
    ensures LettersAndDigits(RemoveDisallowed(s)) == LettersAndDigits(s)
  {
    if s != [] {
      RemoveDisallowedKeepsLetters(s[1..]);
      LettersAndDigitsConcat(if IsKept(s[0]) then [s[0]] else [], RemoveDisallowed(s[1..]));
    }
  }

  lemma {:induction false} CollapseKeepsLetters(s: string)
    ensures LettersAndDigits(CollapseSeparators(s)) == LettersAndDigits(s)
  {
    if s != [] {
      CollapseKeepsLetters(s[1..]);
      if IsSeparator(s[0]) {
        if !(|s| > 1 && IsSeparator(s[1])) {
          LettersAndDigitsConcat("-", CollapseSeparators(s[1..]));
        }
      } else {
        LettersAndDigitsConcat([s[0]], CollapseSeparators(s[1..]));
      }
    }
  }

  lemma {:induction false} DropLeadingKeepsLetters(s: string)
    ensures LettersAndDigits(DropLeadingHyphens(s)) == LettersAndDigits(s)
  {
    if s != [] && s[0] == '-' {
      DropLeadingKeepsLetters(s[1..]);
    }
  }

  lemma {:induction false} DropTrailingKeepsLetters(s: string)
    ensures LettersAndDigits(DropTrailingHyphens(s)) == LettersAndDigits(s)
  {
    if s != [] && s[|s| - 1] == '-' {
      DropTrailingKeepsLetters(s[..|s| - 1]);
      LettersAndDigitsDropLast(s);
    }
  }

  /**
   * generateSlug keeps every letter and digit of the lower-cased text, in
   * order, and adds none: the slug without its hyphens is exactly them.
   */
  lemma GenerateSlugKeepsLettersAndDigits(text: string)
    ensures LettersAndDigits(GenerateSlug(text)) == LettersAndDigits(ToLowerCase(text))
  {
    var lowered := ToLowerCase(text);
    var e := TrimEnd(lowered);
    TrimEndKeepsLetters(lowered);
    TrimStartKeepsLetters(e);
    var trimmed := Trim(lowered);
    RemoveDisallowedKeepsLetters(trimmed);
    var kept := RemoveDisallowed(trimmed);
    CollapseKeepsLetters(kept);
    var collapsed := CollapseSeparators(kept);
    DropLeadingKeepsLetters(collapsed);
    DropTrailingKeepsLetters(DropLeadingHyphens(collapsed));
  }

  // ---------------------------------------------------------------------
  // truncateText
  // ---------------------------------------------------------------------

  /** text.substring(0, n) in the case n < text.length: a negative end counts as 0. */
  function ClampLength(n: int): nat {
    if n < 0 then 0 else n
  }

  /** truncateText: the text itself when it fits, else its trimmed first maxLength characters and "...". */
  function TruncateText(text: string, maxLength: int): (r: string)
    ensures |text| <= maxLength ==> r == text
    ensures |text| > maxLength ==>
      && |r| >= 3
      && |r| <= ClampLength(maxLength) + 3
      && r[|r| - 3..] == "..."
      && IsTrimOf(text[..ClampLength(maxLength)], r[..|r| - 3])
  {
    if |text| <= maxLength then text
    else
      var body := Trim(text[..ClampLength(maxLength)]);
      assert (body + "...")[..|body|] == body;
      body + "..."
  }

  // ---------------------------------------------------------------------
  // calculateDiscount
  // ---------------------------------------------------------------------

  datatype DiscountType = Percentage | FixedAmount

  /** `x` is a whole number of hundredths. */
  predicate IsWholeCents(x: real) {
    (x * 100.0).Floor as real == x * 100.0
  }

  /** Math.round(x * 100) / 100: the nearest hundredth, halves rounded up. */
  function RoundToCents(x: real): (r: real)
    ensures IsWholeCents(r)
    ensures r - 0.005 <= x < r + 0.005
  {
    var k := (x * 100.0 + 0.5).Floor;
    assert (k as real / 100.0) * 100.0 == k as real;
    k as real / 100.0
  }

  lemma RoundToCentsMonotone(x: real, y: real)
    requires x <= y
    ensures RoundToCents(x) <= RoundToCents(y)
  {
    var rx, ry := RoundToCents(x), RoundToCents(y);
    var kx, ky := (rx * 100.0).Floor, (ry * 100.0).Floor;
    assert kx as real < ky as real + 1.0;
    assert kx <= ky;
  }

  lemma RoundToCentsKeepsCents(x: real)
    requires IsWholeCents(x)
    ensures RoundToCents(x) == x
  {
    var k := (x * 100.0).Floor;
    assert (x * 100.0 + 0.5).Floor == k;
  }

  /** The `maxDiscount && ...` test: an absent or zero cap is falsy. */
  predicate CapEnabled(maxDiscount: Option<real>) {
    maxDiscount.Some? && maxDiscount.value != 0.0
  }

  function MinReal(a: real, b: real): real {
    if a <= b then a else b
  }

  /** calculateDiscount */
  method CalculateDiscount(price: real, discountType: DiscountType, discountValue: real, maxDiscount: Option<real>)
    returns (amount: real)
    ensures IsWholeCents(amount)
    ensures discountType == FixedAmount ==> amount == RoundToCents(MinReal(discountValue, price))
    ensures discountType == Percentage && !CapEnabled(maxDiscount) ==>
      amount == RoundToCents(price * discountValue / 100.0)
    ensures discountType == Percentage && CapEnabled(maxDiscount) ==>
      amount == RoundToCents(MinReal(price * discountValue / 100.0, maxDiscount.value))
    ensures discountType == FixedAmount && IsWholeCents(price) ==> amount <= price
    ensures discountType == Percentage && CapEnabled(maxDiscount) && IsWholeCents(maxDiscount.value) ==>
      amount <= maxDiscount.value
  {
    var discount := 0.0;
    if discountType == Percentage {
      discount := (price * discountValue) / 100.0;
      if CapEnabled(maxDiscount) && discount > maxDiscount.value {
        discount := maxDiscount.value;
      }
      if CapEnabled(maxDiscount) && IsWholeCents(maxDiscount.value) {
        RoundToCentsMonotone(discount, maxDiscount.value);
        RoundToCentsKeepsCents(maxDiscount.value);
      }
    } else {
      discount := MinReal(discountValue, price);
      if IsWholeCents(price) {
        RoundToCentsMonotone(discount, price);
        RoundToCentsKeepsCents(price);
      }
    }
    amount := RoundToCents(discount);
  }

  // ---------------------------------------------------------------------
  // isValidEmail: /^[^\s@]+@[^\s@]+\.[^\s@]+$/
  // ---------------------------------------------------------------------

  /** [^\s@]+ */
  predicate IsEmailPart(p: string) {
    |p| > 0 && forall k | 0 <= k < |p| :: !IsWhitespace(p[k]) && p[k] != '@'
  }

  /** The pattern matches `s` with its '@' at `i` and its literal '.' at `j`. */
  predicate MatchesAt(s: string, i: int, j: int)
    requires 0 <= i < j < |s|
  {
    s[i] == '@' && s[j] == '.' && IsEmailPart(s[..i]) && IsEmailPart(s[i + 1..j]) && IsEmailPart(s[j + 1..])
  }

  /**
   * isValidEmail: the anchored pattern matches at some choice of '@' and '.'
   * positions. An accepted address is at least five characters long and
   * neither starts nor ends with white space or '@'.
   */
  predicate IsValidEmail(s: string): (b: bool)
    ensures b ==> |s| >= 5
    ensures b ==> !IsWhitespace(s[0]) && s[0] != '@' && !IsWhitespace(s[|s| - 1]) && s[|s| - 1] != '@'
  {
    MatchShape(s);
    exists i, j | 0 <= i < j < |s| :: MatchesAt(s, i, j)
  }

  lemma MatchShape(s: string)
    ensures forall i, j | 0 <= i < j < |s| && MatchesAt(s, i, j) ::
      |s| >= 5 && !IsWhitespace(s[0]) && s[0] != '@' && !IsWhitespace(s[|s| - 1]) && s[|s| - 1] != '@'
  {
    forall i, j | 0 <= i < j < |s| && MatchesAt(s, i, j)
      ensures |s| >= 5 && !IsWhitespace(s[0]) && s[0] != '@' && !IsWhitespace(s[|s| - 1]) && s[|s| - 1] != '@'
    {
      assert s[..i][0] == s[0];
      assert s[j + 1..][|s| - j - 2] == s[|s| - 1];
    }
  }

  /** Any three parts joined as a + "@" + b + "." + c form a valid address. */
  lemma ValidEmailFromParts(a: string, b: string, c: string)
    requires IsEmailPart(a) && IsEmailPart(b) && IsEmailPart(c)
    ensures IsValidEmail(a + "@" + b + "." + c)
  {
    var s := a + "@" + b + "." + c;
    var i, j := |a|, |a| + 1 + |b|;
    assert s[..i] == a;
    assert s[i + 1..j] == b;
    assert s[j + 1..] == c;
    assert MatchesAt(s, i, j);
  }

  /** Every valid address splits as a + "@" + b + "." + c with three non-empty parts free of white space and '@'. */
  ghost function EmailParts(s: string): (parts: (string, string, string))
    requires IsValidEmail(s)
    ensures IsEmailPart(parts.0) && IsEmailPart(parts.1) && IsEmailPart(parts.2)
    ensures s == parts.0 + "@" + parts.1 + "." + parts.2
  {
    var i, j :| 0 <= i < j < |s| && MatchesAt(s, i, j);
    assert s == s[..i] + "@" + s[i + 1..j] + "." + s[j + 1..];
    (s[..i], s[i + 1..j], s[j + 1..])
  }

  function CountChar(s: string, c: char): nat {
    if s == [] then 0 else (if s[0] == c then 1 else 0) + CountChar(s[1..], c)
  }

  lemma {:induction false} CountCharConcat(a: string, b: string, c: char)
    ensures CountChar(a + b, c) == CountChar(a, c) + CountChar(b, c)
  {
    if a == [] {
      assert a + b == b;
    } else {
      assert (a + b)[1..] == a[1..] + b;
      CountCharConcat(a[1..], b, c);
    }
  }

  lemma {:induction false} CountCharAbsent(a: string, c: char)
    requires forall k | 0 <= k < |a| :: a[k] != c
    ensures CountChar(a, c) == 0
  {
    if a != [] {
      CountCharAbsent(a[1..], c);
    }
  }

  /** Joining three parts free of '@' around one '@' gives exactly one '@'. */
  lemma EmailHasOneAt(a: string, b: string, c: string)
    requires IsEmailPart(a) && IsEmailPart(b) && IsEmailPart(c)
    ensures CountChar(a + "@" + b + "." + c, '@') == 1
  {
    CountCharAbsent(a, '@');
    CountCharAbsent(b, '@');
    CountCharAbsent(c, '@');
    CountCharConcat(a, "@", '@');
    CountCharConcat(a + "@", b, '@');
    CountCharConcat(a + "@" + b, ".", '@');
    CountCharConcat(a + "@" + b + ".", c, '@');
  }

  /** Joining three parts free of white space with '@' and '.' gives no white space. */
  lemma EmailHasNoWhitespace(a: string, b: string, c: string)
    requires IsEmailPart(a) && IsEmailPart(b) && IsEmailPart(c)
    ensures var s := a + "@" + b + "." + c;
      forall k | 0 <= k < |s| :: !IsWhitespace(s[k])
  {
    var s := a + "@" + b + "." + c;
    forall k | 0 <= k < |s| ensures !IsWhitespace(s[k]) {
      if k < |a| {
        assert s[k] == a[k];
      } else if k == |a| {
        assert s[k] == '@';
      } else if k < |a| + 1 + |b| {
        assert s[k] == b[k - |a| - 1];
      } else if k == |a| + 1 + |b| {
        assert s[k] == '.';
      } else {
        assert s[k] == c[k - |a| - 2 - |b|];
      }
    }
  }

  /** A valid address has exactly one '@' and no white space. */
  lemma ValidEmailShape(s: string)
    requires IsValidEmail(s)
    ensures CountChar(s, '@') == 1
    ensures forall k | 0 <= k < |s| :: !IsWhitespace(s[k])
  {
    var (a, b, c) := EmailParts(s);
    EmailHasOneAt(a, b, c);
    EmailHasNoWhitespace(a, b, c);
  }

}
