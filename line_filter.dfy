/**
 * The line filter `parse_lines` of main.py: it turns the raw lines of a source
 * file into numbered commands, dropping blank lines, whole-line comments and
 * inline comments. A command is the whole trimmed text, not a list of tokens.
 */
module LineFilter {
  import opened Wrappers

  /** A loaded program line: its 1-based position in the file and its command text. */
  datatype Line = Line(number: nat, command: string)

  /**
   * The characters for which Python's `str.isspace()` holds, i.e. those
   * `str.strip()` removes: U+0009 to U+000D, U+001C to U+0020, U+0085,
   * U+00A0, U+1680, U+2000 to U+200A, U+2028, U+2029, U+202F, U+205F, U+3000.
   */
  const SpaceChars: set<char> :=
    {
      '\U{9}', '\U{A}', '\U{B}', '\U{C}', '\U{D}', '\U{1C}', '\U{1D}', '\U{1E}',
      '\U{1F}', ' ', '\U{85}', '\U{A0}', '\U{1680}', '\U{2000}', '\U{2001}', '\U{2002}',
      '\U{2003}', '\U{2004}', '\U{2005}', '\U{2006}', '\U{2007}', '\U{2008}', '\U{2009}', '\U{200A}',
      '\U{2028}', '\U{2029}', '\U{202F}', '\U{205F}', '\U{3000}'
    }

  predicate IsSpace(c: char)
  {
    c in SpaceChars
  }

  predicate AllSpace(s: string)
  {
    forall i :: 0 <= i < |s| ==> IsSpace(s[i])
  }

  /** Neither end of `s` is whitespace. */
  predicate Trimmed(s: string)
  {
    s == [] || (!IsSpace(s[0]) && !IsSpace(s[|s| - 1]))
  }

  /** The end of the run of whitespace in `s` that starts at index `i`. */
  function SpaceEnd(s: string, i: nat): (r: nat)
    requires i <= |s|
    ensures i <= r <= |s|
    ensures forall k :: i <= k < r ==> IsSpace(s[k])
    ensures r < |s| ==> !IsSpace(s[r])
    decreases |s| - i
  {
    if i < |s| && IsSpace(s[i]) then SpaceEnd(s, i + 1) else i
  }

  /** The start of the run of whitespace in `s` that ends at index `j`, looking back no further than `lo`. */
  function ContentEnd(s: string, lo: nat, j: nat): (r: nat)
    requires lo <= j <= |s|
    ensures lo <= r <= j
    ensures forall k :: r <= k < j ==> IsSpace(s[k])
    ensures r > lo ==> !IsSpace(s[r - 1])
  {
    if j > lo && IsSpace(s[j - 1]) then ContentEnd(s, lo, j - 1) else j
  }

  /** `SpaceEnd` is the only index with its two properties. */
  lemma SpaceEndUnique(s: string, i: nat, r: nat)
    requires i <= r <= |s|
    requires forall k :: i <= k < r ==> IsSpace(s[k])
    requires r < |s| ==> !IsSpace(s[r])
    ensures SpaceEnd(s, i) == r
  {
  }

  /** `ContentEnd` is the only index with its two properties. */
  lemma ContentEndUnique(s: string, lo: nat, j: nat, r: nat)
    requires lo <= r <= j <= |s|
    requires forall k :: r <= k < j ==> IsSpace(s[k])
    requires r > lo ==> !IsSpace(s[r - 1])
    ensures ContentEnd(s, lo, j) == r
  {
  }

  /** Where the text of `Strip(s)` begins in `s`. */
  function StripStart(s: string): nat
  {
    SpaceEnd(s, 0)
  }

  /** Where the text of `Strip(s)` ends in `s`. */
  function StripEnd(s: string): nat
  {
    ContentEnd(s, StripStart(s), |s|)
  }

  /** Python's `str.strip()`: the span of `s` between its leading and its trailing whitespace. */
  function Strip(s: string): (r: string)
    ensures Trimmed(r)
  {
    s[StripStart(s)..StripEnd(s)]
  }

  /** A line is its leading whitespace, its stripped text and its trailing whitespace. */
  lemma StripSpan(s: string)
    ensures StripStart(s) <= StripEnd(s) <= |s|
    ensures AllSpace(s[..StripStart(s)]) && AllSpace(s[StripEnd(s)..])
    ensures s == s[..StripStart(s)] + Strip(s) + s[StripEnd(s)..]
  {
    SplitThree(s, StripStart(s), StripEnd(s));
  }

  /** `s.split('#', 1)[0]`: the text before the first `#`, or all of `s` when it has none. */
  function BeforeHash(s: string): (r: string)
    ensures |r| <= |s| && r == s[..|r|]
    ensures '#' !in r
    ensures |r| < |s| ==> s[|r|] == '#'
  {
    if s == [] || s[0] == '#' then [] else [s[0]] + BeforeHash(s[1..])
  }

  /** A command as `parse_lines` yields it: non-empty, trimmed and free of `#`. */
  predicate CleanCommand(c: string)
  {
    c != [] && Trimmed(c) && '#' !in c
  }

  /**
   * What `parse_lines` keeps of one raw line: None for a line that is blank,
   * starts with `#` or is blank before its comment; otherwise the command.
   */
  function CleanLine(raw: string): (r: Option<string>)
    ensures r.Some? ==> CleanCommand(r.value)
  {
    var line := Strip(raw);
    if line == [] || line[0] == '#' then None
    else if '#' in line then
      var code := Strip(BeforeHash(line));
      StripKeepsNoHash(BeforeHash(line));
      if code == [] then None else Some(code)
    else Some(line)
  }

  /** Stripping a string without `#` leaves none. */
  lemma StripKeepsNoHash(s: string)
    requires '#' !in s
    ensures '#' !in Strip(s)
  {
    var a := StripStart(s);
    var r := Strip(s);
    forall i | 0 <= i < |r|
      ensures r[i] != '#'
    {
      assert r[i] == s[a + i];
    }
  }

  /** The filter applied to each raw line, position by position. */
  function CleanAll(raw: seq<string>): (r: seq<Option<string>>)
    ensures |r| == |raw| && forall i :: 0 <= i < |raw| ==> r[i] == CleanLine(raw[i])
  {
    if raw == [] then [] else [CleanLine(raw[0])] + CleanAll(raw[1..])
  }

  /**
   * The kept entries of `kept`, each numbered with its 1-based position
   * (the `enumerate(lines, 1)` of `parse_lines`), in order.
   */
  function Numbered(kept: seq<Option<string>>): (r: seq<Line>)
    ensures |r| <= |kept|
    ensures forall k :: 0 <= k < |r| ==>
      1 <= r[k].number <= |kept| && kept[r[k].number - 1] == Some(r[k].command)
    ensures forall j, k :: 0 <= j < k < |r| ==> r[j].number < r[k].number
  {
    if kept == [] then []
    else
      var init := Numbered(kept[..|kept| - 1]);
      match kept[|kept| - 1]
      case None => init
      case Some(c) => init + [Line(|kept|, c)]
  }

  /** No kept entry is lost: each one appears in `Numbered(kept)` under its own number. */
  lemma {:induction false} NumberedKeepsEveryEntry(kept: seq<Option<string>>, i: nat)
    requires i < |kept| && kept[i].Some?
    ensures exists k :: 0 <= k < |Numbered(kept)| && Numbered(kept)[k] == Line(i + 1, kept[i].value)
  {
    var front := kept[..|kept| - 1];
    if i < |kept| - 1 {
      assert front[i] == kept[i];
      NumberedKeepsEveryEntry(front, i);
      var k :| 0 <= k < |Numbered(front)| && Numbered(front)[k] == Line(i + 1, kept[i].value);
      assert Numbered(kept)[k] == Numbered(front)[k];
    } else {
      assert Numbered(kept)[|Numbered(front)|] == Line(i + 1, kept[i].value);
    }
  }

  /**
   * `list(parse_lines(raw))`: the numbered commands in file order, at most
   * one per raw line (what each one is: `ParseLinesSound`).
   */
  function ParseLines(raw: seq<string>): (r: seq<Line>)
    ensures |r| <= |raw|
    ensures forall k :: 0 <= k < |r| ==> 1 <= r[k].number <= |raw|
    ensures forall j, k :: 0 <= j < k < |r| ==> r[j].number < r[k].number
  {
    var kept := CleanAll(raw);
    Numbered(kept)
  }

  /** Each loaded command is what the filter keeps of the raw line its number names. */
  lemma ParseLinesSound(raw: seq<string>, k: nat)
    ensures k < |ParseLines(raw)| ==>
      var line := ParseLines(raw)[k];
      && 1 <= line.number <= |raw|
      && CleanLine(raw[line.number - 1]) == Some(line.command)
      && CleanCommand(line.command)
  {
    if k < |ParseLines(raw)| {
      var kept := CleanAll(raw);
      assert ParseLines(raw) == Numbered(kept);
      assert kept[Numbered(kept)[k].number - 1] == Some(Numbered(kept)[k].command);
    }
  }

  /** Every line the filter keeps appears in the loaded program under its own number. */
  lemma ParseLinesKeepsEveryCommand(raw: seq<string>, i: nat)
    requires i < |raw| && CleanLine(raw[i]).Some?
    ensures exists k :: 0 <= k < |ParseLines(raw)| && ParseLines(raw)[k] == Line(i + 1, CleanLine(raw[i]).value)
  {
    var kept := CleanAll(raw);
    assert kept[i] == CleanLine(raw[i]);
    NumberedKeepsEveryEntry(kept, i);
    assert ParseLines(raw) == Numbered(kept);
  }

  /** Leading whitespace does not change what `Strip` returns. */
  lemma StripSkipsLeadingSpace(pre: string, s: string)
    requires AllSpace(pre)
    ensures Strip(pre + s) == Strip(s)
  {
    StartAfterSpace(pre, s);
    EndAfterSpace(pre, s);
    SliceAfter(pre, s, StripStart(s), StripEnd(s));
  }

  lemma SliceAfter(pre: string, s: string, i: nat, j: nat)
    requires i <= j <= |s|
    ensures (pre + s)[|pre| + i..|pre| + j] == s[i..j]
  {
  }

  lemma StartAfterSpace(pre: string, s: string)
    requires AllSpace(pre)
    ensures StripStart(pre + s) == |pre| + StripStart(s)
  {
    var u, p, a := pre + s, |pre|, StripStart(s);
    forall k | 0 <= k < p + a
      ensures IsSpace(u[k])
    {
      if k < p {
        assert u[k] == pre[k];
      } else {
        assert u[k] == s[k - p];
      }
    }
    if p + a < |u| {
      assert u[p + a] == s[a];
    }
    SpaceEndUnique(u, 0, p + a);
  }

  lemma EndAfterSpace(pre: string, s: string)
    requires AllSpace(pre)
    ensures StripEnd(pre + s) == |pre| + StripEnd(s)
  {
    var u, p, a, b := pre + s, |pre|, StripStart(s), StripEnd(s);
    StartAfterSpace(pre, s);
    forall k | p + b <= k < |u|
      ensures IsSpace(u[k])
    {
      assert u[k] == s[k - p];
    }
    if b > a {
      assert u[p + b - 1] == s[b - 1];
    }
    ContentEndUnique(u, p + a, |u|, p + b);
  }

  /** The first `#` of `s` is at index `j` (or `s` has none and `j == |s|`). */
  lemma BeforeHashAt(s: string, j: nat)
    requires j <= |s| && '#' !in s[..j] && (j < |s| ==> s[j] == '#')
    ensures BeforeHash(s) == s[..j]
  {
  }

  lemma NoHashInSpace(s: string)
    requires AllSpace(s)
    ensures '#' !in s
  {
  }

  /** Text without `#` around `m` does not move the first `#` of `m`. */
  lemma BeforeHashInside(pre: string, m: string, post: string)
    requires '#' !in pre && '#' !in post
    ensures BeforeHash(pre + m + post) == if '#' in m then pre + BeforeHash(m) else pre + m + post
  {
    var s := pre + m + post;
    var j := |BeforeHash(m)|;
    if '#' in m {
      assert j < |m|;
      assert s[..|pre| + j] == pre + m[..j];
      assert s[|pre| + j] == m[j];
      BeforeHashAt(s, |pre| + j);
    } else {
      assert '#' !in s;
      BeforeHashAt(s, |s|);
      assert s[..|s|] == s;
    }
  }

  /** Cutting the comment off a line commutes with stripping the space around it. */
  lemma BeforeHashAroundStrip(raw: string)
    ensures BeforeHash(raw) == if '#' in Strip(raw) then raw[..StripStart(raw)] + BeforeHash(Strip(raw)) else raw
  {
    var a := StripStart(raw);
    var line := Strip(raw);
    var rest := raw[StripEnd(raw)..];
    StripSpan(raw);
    NoHashInSpace(raw[..a]);
    NoHashInSpace(rest);
    BeforeHashInside(raw[..a], line, rest);
  }

  lemma SplitThree(s: string, a: nat, b: nat)
    requires a <= b <= |s|
    ensures s == s[..a] + s[a..b] + s[b..]
  {
    assert s[..b] == s[..a] + s[a..b];
    assert s == s[..b] + s[b..];
  }

  /** `Strip` leaves a trimmed string as it is. */
  lemma StripTrimmed(s: string)
    requires Trimmed(s)
    ensures Strip(s) == s
  {
    SpaceEndUnique(s, 0, 0);
    ContentEndUnique(s, 0, |s|, |s|);
    assert s[0..|s|] == s;
  }

  /** The value the filter keeps of a line whose kept text is `code`. */
  function NonEmpty(code: string): Option<string>
  {
    if code == [] then None else Some(code)
  }

  /** With a comment, the filter keeps the trimmed text before it. */
  lemma CleanLineWithComment(raw: string)
    requires '#' in Strip(raw)
    ensures CleanLine(raw) == NonEmpty(Strip(BeforeHash(raw)))
  {
    CleanLineCutsComment(raw);
    CommentCutCommutes(raw);
  }

  lemma CleanLineCutsComment(raw: string)
    requires '#' in Strip(raw)
    ensures CleanLine(raw) == NonEmpty(Strip(BeforeHash(Strip(raw))))
  {
    var line := Strip(raw);
    if line[0] == '#' {
      assert BeforeHash(line) == [];
      assert Strip(BeforeHash(line)) == [];
    }
  }

  lemma CommentCutCommutes(raw: string)
    requires '#' in Strip(raw)
    ensures Strip(BeforeHash(raw)) == Strip(BeforeHash(Strip(raw)))
  {
    var a := StripStart(raw);
    BeforeHashAroundStrip(raw);
    StripSpan(raw);
    NoHashInSpace(raw[..a]);
    StripSkipsLeadingSpace(raw[..a], BeforeHash(Strip(raw)));
  }

  lemma CleanLineWithoutComment(raw: string)
    requires '#' !in Strip(raw)
    ensures CleanLine(raw) == NonEmpty(Strip(BeforeHash(raw)))
  {
    BeforeHashAroundStrip(raw);
    assert BeforeHash(raw) == raw;
  }

  /**
   * Reference reading of the filter: a line's command is the trimmed text
   * before its first `#`, and a line is dropped exactly when that is empty.
   */
  lemma CleanLineIsCodeBeforeComment(raw: string)
    ensures CleanLine(raw) == NonEmpty(Strip(BeforeHash(raw)))
  {
    if '#' in Strip(raw) {
      CleanLineWithComment(raw);
    } else {
      CleanLineWithoutComment(raw);
    }
  }
}
