/** How a generator turns the raw name it is given into the names it uses:
    `toLowerCase`, Node.js's `path.basename` and `path.extname` (POSIX
    flavour), and the narrow title rule `titleCase(x).replace('-', ' ')`. */
module Names {
  import opened Strings

  predicate IsUpper(c: char)
  {
    'A' <= c <= 'Z'
  }

  function LowerChar(c: char): (d: char)
    ensures !IsUpper(d)
    ensures IsUpper(c) ==> d as int == c as int + 32
    ensures !IsUpper(c) ==> d == c
  {
    if IsUpper(c) then (c as int + 32) as char else c
  }

  /** `String.prototype.toLowerCase`, on the ASCII letters. */
  function ToLower(s: string): (r: string)
    ensures |r| == |s|
  {
    seq(|s|, i requires 0 <= i < |s| => LowerChar(s[i]))
  }

  /** The lower-cased name has no upper-case letter, each upper-case letter
      becomes its lower-case partner, and every other character is kept. */
  lemma ToLowerChars(s: string)
    ensures forall i | 0 <= i < |s| :: !IsUpper(ToLower(s)[i])
    ensures forall i | 0 <= i < |s| && IsUpper(s[i]) :: ToLower(s)[i] as int == s[i] as int + 32
    ensures forall i | 0 <= i < |s| && !IsUpper(s[i]) :: ToLower(s)[i] == s[i]
  {
  }

  /** Lower-casing a lower-case name changes nothing. */
  lemma ToLowerIdempotent(s: string)
    ensures ToLower(ToLower(s)) == ToLower(s)
  {
    ToLowerChars(s);
  }

  /** `p` without the slashes at its end. */
  function StripTrailingSlashes(p: string): (r: string)
    ensures r <= p
    ensures r == [] || r[|r| - 1] != '/'
    ensures forall i | |r| <= i < |p| :: p[i] == '/'
  {
    if p != [] && p[|p| - 1] == '/' then StripTrailingSlashes(p[..|p| - 1]) else p
  }

  /** The last path segment: what `path.basename(p)` returns, the part of
      `p`, without its trailing slashes, after its last `/`. */
  function LastSegment(p: string): (r: string)
    ensures '/' !in r
    ensures |r| <= |p|
  {
    var q := StripTrailingSlashes(p);
    q[LastIndexOf(q, '/') + 1..]
  }

  /** The last segment ends the path without its trailing slashes, and is
      either all of it or preceded by a `/`: nothing after the last slash is
      left out. */
  lemma LastSegmentAfterLastSlash(p: string)
    ensures |LastSegment(p)| <= |StripTrailingSlashes(p)|
    ensures StripTrailingSlashes(p)[|StripTrailingSlashes(p)| - |LastSegment(p)|..] == LastSegment(p)
    ensures || |LastSegment(p)| == |StripTrailingSlashes(p)|
            || StripTrailingSlashes(p)[|StripTrailingSlashes(p)| - |LastSegment(p)| - 1] == '/'
  {
    var q := StripTrailingSlashes(p);
    var i := LastIndexOf(q, '/');
    assert i >= 0 ==> q[i] == '/';
    TailAfter(q, i, LastSegment(p));
  }

  /** What follows position `i` ends `q` and starts right after it. */
  lemma TailAfter(q: string, i: int, r: string)
    requires -1 <= i < |q|
    requires i >= 0 ==> q[i] == '/'
    requires r == q[i + 1..]
    ensures |r| <= |q| && q[|q| - |r|..] == r
    ensures |r| == |q| || q[|q| - |r| - 1] == '/'
  {
  }

  /** `path.extname(p)`: from the last dot of the last segment to its end,
      or empty when the segment has no dot, starts with its only leading
      dot (a dot file such as `.gitignore`), or is `..`. */
  function ExtName(p: string): (r: string)
  {
    var seg := LastSegment(p);
    var d := LastIndexOf(seg, '.');
    if d <= 0 || seg == ".." then "" else seg[d..]
  }

  /** `path.basename(p, suffix)`: the last segment with `suffix` removed
      when the segment ends with it and is longer than it; the empty string
      when `suffix` is the whole of `p`. */
  function Basename(p: string, suffix: string): (r: string)
  {
    var seg := LastSegment(p);
    if suffix != [] && suffix == p then ""
    else if suffix != [] && |suffix| < |seg| && seg[|seg| - |suffix|..] == suffix then
      seg[..|seg| - |suffix|]
    else seg
  }

  /** `path.basename(name, path.extname(name))`, the generators' `filename`. */
  function FileName(name: string): (r: string)
  {
    Basename(name, ExtName(name))
  }

  /** The file name and the extension together make up the last segment:
      the file name is never empty for a segment that is not, holds no
      slash, and is the whole segment when the segment has no dot. */
  lemma {:induction false} FileNameSplit(name: string)
    ensures FileName(name) + ExtName(name) == LastSegment(name)
    ensures '/' !in FileName(name)
    ensures LastSegment(name) != [] ==> FileName(name) != []
    ensures '.' !in LastSegment(name) ==> FileName(name) == LastSegment(name)
    ensures ExtName(name) != [] ==> ExtName(name)[0] == '.' && '.' !in ExtName(name)[1..]
    ensures var seg := LastSegment(name);
            seg != [] && seg != ".." && '.' in seg[1..] ==> FileName(name) == seg[..LastIndexOf(seg, '.')]
  {
    var seg := LastSegment(name);
    var ext := ExtName(name);
    ExtNameIsProperSuffix(name);
    if ext != [] {
      assert seg[..|seg| - |ext|] + ext == seg;
      assert FileName(name) == seg[..|seg| - |ext|];
      if seg != [] && seg != ".." && '.' in seg[1..] {
        assert |seg| - |ext| == LastIndexOf(seg, '.');
      }
    }
  }

  /** A non-empty extension starts with the segment's last dot, which is not
      its first character; and a segment other than `..` with a dot after
      its first character has one. */
  lemma ExtNameIsProperSuffix(name: string)
    ensures var seg := LastSegment(name); var ext := ExtName(name);
            ext != [] ==> && |ext| < |seg|
                          && seg[|seg| - |ext|..] == ext
                          && ext[0] == '.' && '.' !in ext[1..]
    ensures var seg := LastSegment(name);
            seg != [] && seg != ".." && '.' in seg[1..] ==>
              ExtName(name) != [] && ExtName(name) == seg[LastIndexOf(seg, '.')..]
  {
    var seg := LastSegment(name);
    var d := LastIndexOf(seg, '.');
    if d > 0 && seg != ".." {
      assert ExtName(name) == seg[d..];
      assert seg[d..][1..] == seg[d + 1..];
    }
    if seg != [] && seg != ".." && '.' in seg[1..] {
      var k :| 0 <= k < |seg[1..]| && seg[1..][k] == '.';
      assert seg[k + 1] == '.';
      assert d >= k + 1;
    }
  }

  /** A name typed on one line gives one-line names: lower-casing and
      taking the file name add no line break. */
  lemma NoNewlineKept(s: string)
    requires NoNewline(s)
    ensures NoNewline(ToLower(s))
    ensures NoNewline(FileName(ToLower(s)))
  {
    var g := ToLower(s);
    forall i | 0 <= i < |g| ensures g[i] != '\n' {
      assert g[i] == LowerChar(s[i]);
    }
    var q := StripTrailingSlashes(g);
    assert '\n' !in q by {
      forall i | 0 <= i < |q| ensures q[i] != '\n' { assert q[i] == g[i]; }
    }
    var seg := LastSegment(g);
    assert '\n' !in seg;
    FileNameSplit(g);
    assert FileName(g) == seg[..|FileName(g)|];
  }

  /** `s.replace(a, b)` for a one-character string pattern: only the first
      occurrence is replaced. */
  function ReplaceFirst(s: string, a: char, b: char): (r: string)
    ensures |r| == |s|
    ensures a !in s ==> r == s
    ensures a in s ==> r == s[..IndexOf(s, a)] + [b] + s[IndexOf(s, a) + 1..]
  {
    if s == [] then []
    else if s[0] == a then [b] + s[1..]
    else
      var rest := ReplaceFirst(s[1..], a, b);
      ReplaceFirstStep(s, a, b, rest);
      [s[0]] + rest
  }

  lemma ReplaceFirstStep(s: string, a: char, b: char, rest: string)
    requires s != [] && s[0] != a
    requires a !in s[1..] ==> rest == s[1..]
    requires a in s[1..] ==> rest == s[1..][..IndexOf(s[1..], a)] + [b] + s[1..][IndexOf(s[1..], a) + 1..]
    ensures a !in s ==> [s[0]] + rest == s
    ensures a in s ==> [s[0]] + rest == s[..IndexOf(s, a)] + [b] + s[IndexOf(s, a) + 1..]
  {
    var t := s[1..];
    assert s == [s[0]] + t;
    if a in s {
      var i := IndexOf(s, a);
      assert a in t by { assert s[i] == t[i - 1]; }
      var j := IndexOf(t, a);
      assert j == i - 1;
      assert rest == t[..j] + [b] + t[j + 1..];
      SpliceAfterHead(s[0], t, j, b);
    }
  }

  /** Replacing position `j` of `t` and then putting `c` in front is
      replacing position `j + 1` of `[c] + t`. */
  lemma SpliceAfterHead(c: char, t: string, j: int, b: char)
    requires 0 <= j < |t|
    ensures [c] + (t[..j] + [b] + t[j + 1..]) == ([c] + t)[..j + 1] + [b] + ([c] + t)[j + 2..]
  {
    var s := [c] + t;
    assert s[..j + 1] == [c] + t[..j];
    assert s[j + 2..] == t[j + 1..];
  }

  /** The `properTitle` of a generator: `titleCase(s).replace('-', ' ')`,
      with `titleCase` left as a parameter. */
  function ProperTitle(titleCase: string -> string, s: string): string
  {
    ReplaceFirst(titleCase(s), '-', ' ')
  }

  /** Only the first hyphen of the title becomes a space: every later
      hyphen, and every other character, is kept. */
  lemma ProperTitleFirstHyphenOnly(titleCase: string -> string, s: string)
    ensures |ProperTitle(titleCase, s)| == |titleCase(s)|
    ensures '-' !in titleCase(s) ==> ProperTitle(titleCase, s) == titleCase(s)
    ensures '-' in titleCase(s) ==>
              var i := IndexOf(titleCase(s), '-');
              && ProperTitle(titleCase, s)[i] == ' '
              && '-' !in ProperTitle(titleCase, s)[..i]
              && forall j | 0 <= j < |titleCase(s)| && j != i ::
                   ProperTitle(titleCase, s)[j] == titleCase(s)[j]
  {
    var t := titleCase(s);
    var r := ProperTitle(titleCase, s);
    if '-' in t {
      var i := IndexOf(t, '-');
      assert r == t[..i] + [' '] + t[i + 1..];
      assert r[..i] == t[..i];
      forall j | 0 <= j < |t| && j != i ensures r[j] == t[j] {
        if j < i { assert r[j] == t[..i][j]; } else { assert r[j] == t[i + 1..][j - i - 1]; }
      }
    }
  }

  /** A title "<w1>-<w2>" whose first word has no hyphen becomes
      "<w1> <w2>", whatever hyphens `w2` holds. */
  lemma {:induction false} TitleOfHyphenated(titleCase: string -> string, s: string, w1: string, w2: string)
    requires '-' !in w1
    requires titleCase(s) == w1 + "-" + w2
    ensures ProperTitle(titleCase, s) == w1 + " " + w2
  {
    IndexOfAfter(w1, '-', w2);
    var t := titleCase(s);
    assert t[..|w1|] == w1;
    assert t[|w1| + 1..] == w2;
  }

  /** The name "Card-Layout" is used as "card-layout", and a title-caser that
      maps it to "Card-Layout" yields the title "Card Layout". */
  lemma CardLayoutScenario(titleCase: string -> string)
    requires titleCase("card-layout") == "Card-Layout"
    ensures ToLower("Card-Layout") == "card-layout"
    ensures ProperTitle(titleCase, ToLower("Card-Layout")) == "Card Layout"
  {
    var raw := "Card-Layout";
    assert forall i | 0 <= i < |raw| :: ToLower(raw)[i] == "card-layout"[i];
    var lowered := ToLower(raw);
    assert lowered == "card-layout";
    assert "Card" + "-" + "Layout" == "Card-Layout";
    assert "Card" + " " + "Layout" == "Card Layout";
    TitleOfHyphenated(titleCase, lowered, "Card", "Layout");
  }
}
