/** Text normalisation (`clean_text`) and the comma-join rule for multi-valued fields. */
module TextClean {

  /** The characters Python's `str.split()` (no argument) splits on: those for which
      `str.isspace()` holds. */
  predicate IsSpace(c: char) {
    ('\t' <= c <= '\r') || ('\U{1C}' <= c <= ' ') || c == '\U{85}' || c == '\U{A0}'
    || c == '\U{1680}' || ('\U{2000}' <= c <= '\U{200A}') || c == '\U{2028}'
    || c == '\U{2029}' || c == '\U{202F}' || c == '\U{205F}' || c == '\U{3000}'
  }

  predicate NoSpace(w: string) {
    forall i :: 0 <= i < |w| ==> !IsSpace(w[i])
  }

  /** A word of `str.split()`: a non-empty run of non-whitespace characters. */
  predicate IsWord(w: string) {
    w != [] && NoSpace(w)
  }

  predicate AllWords(ws: seq<string>) {
    forall k :: 0 <= k < |ws| ==> IsWord(ws[k])
  }

  /** The shape `clean_text` promises: no leading or trailing whitespace, every
      whitespace character a plain space, and no two whitespace characters side by side. */
  predicate Normalized(s: string) {
    (s != [] ==> !IsSpace(s[0]) && !IsSpace(s[|s| - 1]))
    && (forall i :: 0 <= i < |s| && IsSpace(s[i]) ==> s[i] == ' ')
    && (forall i, j :: 0 <= i < |s| && 0 <= j < |s| && j == i + 1 ==> !IsSpace(s[i]) || !IsSpace(s[j]))
  }

  /** The non-whitespace characters of `s`, in their original order. */
  function NonSpace(s: string): string {
    if s == [] then []
    else if IsSpace(s[0]) then NonSpace(s[1..])
    else [s[0]] + NonSpace(s[1..])
  }

  function Concat(ws: seq<string>): string {
    if ws == [] then [] else ws[0] + Concat(ws[1..])
  }

  /** Length of the run of non-whitespace characters at the front of `s`. */
  function WordLength(s: string): (n: nat)
    ensures n <= |s|
    ensures forall i :: 0 <= i < n ==> !IsSpace(s[i])
    ensures n < |s| ==> IsSpace(s[n])
    ensures s != [] && !IsSpace(s[0]) ==> n > 0
  {
    if s == [] || IsSpace(s[0]) then 0
    else
      1 + WordLength(s[1..])
  }

  /** Python's `text.split()`: the maximal runs of non-whitespace characters, in order. */
  function Split(s: string): seq<string>
    decreases |s|
  {
    if s == [] then []
    else if IsSpace(s[0]) then Split(s[1..])
    else
      var n := WordLength(s);
      [s[..n]] + Split(s[n..])
  }

  /** Python's string join: the items with `sep` between each two of them. */
  function Join(sep: string, items: seq<string>): string {
    if items == [] then ""
    else if |items| == 1 then items[0]
    else items[0] + sep + Join(sep, items[1..])
  }

  /** `clean_text` (SDGsAction.py:11-13): the words of the text, joined by single spaces. */
  function CleanText(s: string): string {
    Join(" ", Split(s))
  }

  /** The sentinel stored for a field whose lookup found nothing. */
  const Missing: string := "-"

  /** The rule for SDGs, Region and Countries (SDGsAction.py:124, 135 and 150): the items
      joined with commas, or the sentinel when there are none. */
  function JoinOrDash(items: seq<string>): string {
    if items == [] then Missing else Join(",", items)
  }

  /** Python's `s.split(c)` for a one-character separator: the pieces between
      occurrences of `c` (always at least one piece). */
  function SplitOn(c: char, s: string): (pieces: seq<string>)
    ensures |pieces| >= 1
  {
    if s == [] then [""]
    else
      var rest := SplitOn(c, s[1..]);
      if s[0] == c then [""] + rest else [[s[0]] + rest[0]] + rest[1..]
  }

  // ---------------------------------------------------------------------------
  // Split
  // ---------------------------------------------------------------------------

  /** Every piece `str.split()` returns is a word. */
  lemma {:induction false} SplitWords(s: string)
    ensures AllWords(Split(s))
    decreases |s|
  {
    if s == [] {
    } else if IsSpace(s[0]) {
      SplitWords(s[1..]);
    } else {
      var n := WordLength(s);
      SplitWords(s[n..]);
    }
  }

  lemma {:induction false} NonSpaceAppend(a: string, b: string)
    ensures NonSpace(a + b) == NonSpace(a) + NonSpace(b)
  {
    if a == [] {
      assert a + b == b;
    } else {
      assert (a + b)[1..] == a[1..] + b;
      NonSpaceAppend(a[1..], b);
    }
  }

  lemma {:induction false} NonSpaceOfNoSpace(w: string)
    requires NoSpace(w)
    ensures NonSpace(w) == w
  {
    if w != [] {
      NonSpaceOfNoSpace(w[1..]);
    }
  }

  /** The words of `s`, glued together, are exactly its non-whitespace characters. */
  lemma {:induction false} SplitKeepsNonSpace(s: string)
    ensures Concat(Split(s)) == NonSpace(s)
    decreases |s|
  {
    if s == [] {
    } else if IsSpace(s[0]) {
      SplitKeepsNonSpace(s[1..]);
    } else {
      var n := WordLength(s);
      SplitKeepsNonSpace(s[n..]);
      assert s == s[..n] + s[n..];
      NonSpaceAppend(s[..n], s[n..]);
      NonSpaceOfNoSpace(s[..n]);
      assert ([s[..n]] + Split(s[n..]))[1..] == Split(s[n..]);
    }
  }

  /** A string of one leading whitespace character splits like its tail. */
  lemma SplitSkipsSpace(c: char, t: string)
    requires IsSpace(c)
    ensures Split([c] + t) == Split(t)
  {
    assert ([c] + t)[1..] == t;
  }

  lemma {:induction false} WordLengthOfWord(w: string, t: string)
    requires NoSpace(w)
    requires t == [] || IsSpace(t[0])
    ensures WordLength(w + t) == |w|
  {
    if w != [] {
      assert (w + t)[1..] == w[1..] + t;
      WordLengthOfWord(w[1..], t);
    } else {
      assert w + t == t;
    }
  }

  /** A word followed by whitespace (or by nothing) is split off as one piece. */
  lemma SplitWordThen(w: string, t: string)
    requires IsWord(w)
    requires t == [] || IsSpace(t[0])
    ensures Split(w + t) == [w] + Split(t)
  {
    WordLengthOfWord(w, t);
    var s := w + t;
    assert s[..|w|] == w && s[|w|..] == t;
  }

  // ---------------------------------------------------------------------------
  // Join
  // ---------------------------------------------------------------------------

  lemma JoinCons(sep: string, w: string, rest: seq<string>)
    requires rest != []
    ensures Join(sep, [w] + rest) == w + sep + Join(sep, rest)
  {
    assert ([w] + rest)[1..] == rest;
  }

  lemma GlueIndex(w: string, j: string)
    ensures var s := w + " " + j;
      |s| == |w| + 1 + |j| && s[|w|] == ' ' &&
      (forall i :: 0 <= i < |w| ==> s[i] == w[i]) &&
      (forall k :: 0 <= k < |j| ==> s[|w| + 1 + k] == j[k])
  {
  }

  /** A word, one space, and a normalized string that starts with a non-whitespace
      character form a normalized string. */
  lemma NormalizedGlue(w: string, j: string)
    requires IsWord(w) && Normalized(j) && j != [] && !IsSpace(j[0])
    ensures Normalized(w + " " + j)
  {
    var s := w + " " + j;
    GlueIndex(w, j);
    assert s[0] == w[0] && s[|s| - 1] == j[|j| - 1];
    forall i | |w| < i < |s| && IsSpace(s[i]) ensures s[i] == ' ' {
      assert s[i] == j[i - |w| - 1];
    }
    forall i, k | |w| < i < |s| && |w| < k < |s| && k == i + 1
      ensures !IsSpace(s[i]) || !IsSpace(s[k])
    {
      assert s[i] == j[i - |w| - 1] && s[k] == j[k - |w| - 1];
    }
    assert !IsSpace(s[|w| - 1]) && !IsSpace(s[|w| + 1]);
  }

  lemma AllWordsTail(ws: seq<string>)
    requires AllWords(ws) && ws != []
    ensures IsWord(ws[0]) && AllWords(ws[1..])
  {
    forall k | 0 <= k < |ws[1..]| ensures IsWord(ws[1..][k]) {
      assert ws[1..][k] == ws[k + 1];
    }
  }

  /** Joining words with single spaces gives a normalized string, which is non-empty and
      starts with a non-whitespace character when there is at least one word. */
  lemma {:induction false} JoinWordsNormalized(ws: seq<string>)
    requires AllWords(ws)
    ensures Normalized(Join(" ", ws))
    ensures ws != [] ==> Join(" ", ws) != [] && !IsSpace(Join(" ", ws)[0])
  {
    if |ws| == 1 {
      assert IsWord(ws[0]);
    } else if |ws| > 1 {
      AllWordsTail(ws);
      var w, rest := ws[0], ws[1..];
      JoinWordsNormalized(rest);
      assert ws == [w] + rest;
      JoinCons(" ", w, rest);
      NormalizedGlue(w, Join(" ", rest));
      assert Join(" ", ws)[0] == w[0];
    }
  }

  lemma {:induction false} JoinNonSpace(ws: seq<string>)
    requires AllWords(ws)
    ensures NonSpace(Join(" ", ws)) == Concat(ws)
  {
    if |ws| == 1 {
      NonSpaceOfNoSpace(ws[0]);
      assert Concat(ws) == ws[0] + Concat([]);
    } else if |ws| > 1 {
      var w, rest := ws[0], ws[1..];
      assert AllWords(rest) by {
        forall k | 0 <= k < |rest| ensures IsWord(rest[k]) {
          assert rest[k] == ws[k + 1];
        }
      }
      JoinNonSpace(rest);
      assert ws == [w] + rest;
      JoinCons(" ", w, rest);
      NonSpaceAppend(w + " ", Join(" ", rest));
      NonSpaceAppend(w, " ");
      NonSpaceOfNoSpace(w);
      assert NonSpace(" ") == NonSpace("");
    }
  }

  /** Splitting words joined by single spaces gives the words back. */
  lemma {:induction false} SplitJoin(ws: seq<string>)
    requires AllWords(ws)
    ensures Split(Join(" ", ws)) == ws
  {
    if |ws| == 1 {
      SplitWordThen(ws[0], []);
      assert ws[0] + [] == ws[0];
    } else if |ws| > 1 {
      var w, rest := ws[0], ws[1..];
      assert IsWord(w);
      assert AllWords(rest) by {
        forall k | 0 <= k < |rest| ensures IsWord(rest[k]) {
          assert rest[k] == ws[k + 1];
        }
      }
      SplitJoin(rest);
      var j := Join(" ", rest);
      assert ws == [w] + rest;
      JoinCons(" ", w, rest);
      assert w + " " + j == w + ([' '] + j);
      SplitWordThen(w, [' '] + j);
      SplitSkipsSpace(' ', j);
    }
  }

  lemma {:induction false} JoinEmptyIffNoWords(ws: seq<string>)
    requires AllWords(ws)
    ensures Join(" ", ws) == "" <==> ws == []
  {
    if ws != [] {
      JoinWordsNormalized(ws);
    }
  }

  lemma {:induction false} ConcatEmptyIffNoWords(ws: seq<string>)
    requires AllWords(ws)
    ensures Concat(ws) == "" <==> ws == []
  {
    if ws != [] {
      assert IsWord(ws[0]);
      assert |Concat(ws)| >= |ws[0]|;
    }
  }

  lemma {:induction false} NonSpaceEmptyIffAllSpace(s: string)
    ensures NonSpace(s) == "" <==> forall i :: 0 <= i < |s| ==> IsSpace(s[i])
  {
    if s != [] {
      NonSpaceEmptyIffAllSpace(s[1..]);
      if !IsSpace(s[0]) {
        assert NonSpace(s)[0] == s[0];
      } else {
        assert forall i :: 1 <= i < |s| ==> s[i] == s[1..][i - 1];
      }
    }
  }

  // ---------------------------------------------------------------------------
  // clean_text
  // ---------------------------------------------------------------------------

  /** `clean_text` output has no whitespace other than single spaces between
      non-whitespace characters: no leading or trailing whitespace and no two adjacent
      whitespace characters. */
  lemma CleanTextNormalized(s: string)
    ensures Normalized(CleanText(s))
  {
    SplitWords(s);
    JoinWordsNormalized(Split(s));
  }

  /** `clean_text` keeps every non-whitespace character, in the original order. */
  lemma CleanTextKeepsNonSpace(s: string)
    ensures NonSpace(CleanText(s)) == NonSpace(s)
  {
    SplitWords(s);
    JoinNonSpace(Split(s));
    SplitKeepsNonSpace(s);
  }

  /** `clean_text` keeps the words apart: the result splits into exactly the words of
      the input, so every run of whitespace between two words becomes one space. */
  lemma CleanTextKeepsWords(s: string)
    ensures Split(CleanText(s)) == Split(s)
  {
    SplitWords(s);
    SplitJoin(Split(s));
  }

  /** A suffix of a normalized string that starts at a non-whitespace character is
      normalized. */
  lemma NormalizedSuffix(s: string, m: nat)
    requires Normalized(s) && m < |s| && !IsSpace(s[m])
    ensures Normalized(s[m..])
  {
    var t := s[m..];
    assert forall k :: 0 <= k < |t| ==> t[k] == s[m + k];
    forall i, k | 0 <= i < |t| && 0 <= k < |t| && k == i + 1
      ensures !IsSpace(t[i]) || !IsSpace(t[k])
    {
      assert t[i] == s[m + i] && t[k] == s[m + k];
    }
  }

  /** A normalized string that does not end after its first word continues with one
      space and a normalized rest that starts with a word. */
  lemma NormalizedAfterWord(s: string)
    requires Normalized(s) && s != []
    ensures !IsSpace(s[0])
    ensures WordLength(s) < |s| ==>
      var n := WordLength(s);
      s[n] == ' ' && n + 1 < |s| && !IsSpace(s[n + 1]) && Normalized(s[n + 1..])
  {
    var n := WordLength(s);
    if n < |s| {
      assert IsSpace(s[n]);
      assert n + 1 < |s| by {
        assert !IsSpace(s[|s| - 1]);
      }
      assert !IsSpace(s[n + 1]) by {
        assert !IsSpace(s[n]) || !IsSpace(s[n + 1]);
      }
      NormalizedSuffix(s, n + 1);
    }
  }

  lemma SplitStartsWithWord(t: string)
    requires t != [] && !IsSpace(t[0])
    ensures Split(t) != []
  {
  }

  /** A word, one space, then the rest: the word is the first piece of the split and the
      rest is split on its own. */
  lemma SplitAtSpace(s: string, n: nat)
    requires n + 1 < |s| && s[n] == ' ' && IsWord(s[..n])
    ensures Split(s) == [s[..n]] + Split(s[n + 1..])
  {
    var w, t := s[..n], s[n + 1..];
    assert s == w + ([' '] + t);
    SplitWordSpace(w, t);
  }

  lemma SplitWordSpace(w: string, t: string)
    requires IsWord(w)
    ensures Split(w + ([' '] + t)) == [w] + Split(t)
  {
    SplitWordThen(w, [' '] + t);
    SplitSkipsSpace(' ', t);
  }

  lemma FirstWordOfNormalized(s: string)
    requires Normalized(s) && s != []
    ensures IsWord(s[..WordLength(s)])
  {
    NormalizedAfterWord(s);
    var w := s[..WordLength(s)];
    assert forall i :: 0 <= i < |w| ==> w[i] == s[i];
  }

  lemma CleanTextOfWord(w: string)
    requires IsWord(w)
    ensures CleanText(w) == w
  {
    SplitWordThen(w, []);
    assert w + [] == w;
  }

  /** A word and one space in front of a string that does not clean to nothing. */
  lemma CleanTextAtSpace(s: string, n: nat)
    requires n + 1 < |s| && s[n] == ' ' && IsWord(s[..n]) && Split(s[n + 1..]) != []
    ensures CleanText(s) == s[..n] + " " + CleanText(s[n + 1..])
  {
    SplitAtSpace(s, n);
    JoinCons(" ", s[..n], Split(s[n + 1..]));
  }

  /** `clean_text` leaves a normalized string unchanged. */
  lemma {:induction false} CleanTextOfNormalized(s: string)
    requires Normalized(s)
    ensures CleanText(s) == s
    decreases |s|
  {
    if s != [] {
      NormalizedAfterWord(s);
      FirstWordOfNormalized(s);
      var n := WordLength(s);
      if n == |s| {
        assert s[..n] == s;
        CleanTextOfWord(s);
      } else {
        var t := s[n + 1..];
        SplitStartsWithWord(t);
        CleanTextAtSpace(s, n);
        CleanTextOfNormalized(t);
        assert s == s[..n] + " " + t;
      }
    }
  }

  /** The strings `clean_text` leaves unchanged are exactly the normalized ones. */
  lemma CleanTextFixedPoints(s: string)
    ensures CleanText(s) == s <==> Normalized(s)
  {
    if CleanText(s) == s {
      CleanTextNormalized(s);
    }
    if Normalized(s) {
      CleanTextOfNormalized(s);
    }
  }

  /** Applying `clean_text` twice is the same as applying it once. */
  lemma CleanTextIdempotent(s: string)
    ensures CleanText(CleanText(s)) == CleanText(s)
  {
    CleanTextNormalized(s);
    CleanTextFixedPoints(CleanText(s));
  }

  /** `clean_text` gives the empty string exactly for all-whitespace input. */
  lemma CleanTextEmptyIffAllSpace(s: string)
    ensures CleanText(s) == "" <==> forall i :: 0 <= i < |s| ==> IsSpace(s[i])
  {
    SplitWords(s);
    JoinEmptyIffNoWords(Split(s));
    ConcatEmptyIffNoWords(Split(s));
    SplitKeepsNonSpace(s);
    NonSpaceEmptyIffAllSpace(s);
  }

  predicate AllSpace(g: string) {
    forall i :: 0 <= i < |g| ==> IsSpace(g[i])
  }

  lemma {:induction false} SplitSpacesThen(g: string, t: string)
    requires AllSpace(g)
    ensures Split(g + t) == Split(t)
    decreases |g|
  {
    if g != [] {
      assert g + t == [g[0]] + (g[1..] + t);
      SplitSkipsSpace(g[0], g[1..] + t);
      SplitSpacesThen(g[1..], t);
    } else {
      assert g + t == t;
    }
  }

  /** Whitespace, then a word, then something that starts with whitespace (or nothing):
      the word is the first piece. */
  lemma SplitGapThenWord(g: string, w: string, t: string)
    requires AllSpace(g) && IsWord(w)
    requires t == [] || IsSpace(t[0])
    ensures Split(g + w + t) == [w] + Split(t)
  {
    assert g + w + t == g + (w + t);
    SplitSpacesThen(g, w + t);
    SplitWordThen(w, t);
  }

  /** The worked example: runs of spaces and a newline collapse to single spaces. */
  lemma CleanTextExample(s: string)
    requires s == "  a   b\n c "
    ensures CleanText(s) == "a b c"
  {
    var g0, g1, g2, g3 := "  ", "   ", "\n ", " ";
    var a, b, c := "a", "b", "c";
    var t2 := g2 + c + g3;
    var t1 := g1 + b + t2;
    assert s == g0 + a + t1;
    SplitGapThenWord(g0, a, t1);
    SplitGapThenWord(g1, b, t2);
    SplitGapThenWord(g2, c, g3);
    assert g3 == g3 + [];
    SplitSpacesThen(g3, []);
    assert Split(s) == [a] + ([b] + ([c] + []));
    assert [a] + ([b] + ([c] + [])) == [a] + [b, c] == [a, b, c];
    JoinCons(" ", a, [b, c]);
    assert [b] + [c] == [b, c];
    JoinCons(" ", b, [c]);
  }

  // ---------------------------------------------------------------------------
  // The multi-value rule
  // ---------------------------------------------------------------------------

  lemma {:induction false} SplitOnPiece(c: char, w: string, t: string)
    requires c !in w
    ensures SplitOn(c, w + [c] + t) == [w] + SplitOn(c, t)
    ensures SplitOn(c, w) == [w]
  {
    if w == [] {
      assert w + [c] + t == [c] + t;
      assert ([c] + t)[1..] == t;
    } else {
      assert (w + [c] + t)[1..] == w[1..] + [c] + t;
      SplitOnPiece(c, w[1..], t);
      assert [w[0]] + w[1..] == w;
    }
  }

  /** A non-empty list of comma-free items survives the comma-join: splitting the stored
      value on ',' gives the items back, in document order. */
  lemma {:induction false} JoinOrDashRoundTrip(items: seq<string>)
    requires items != []
    requires forall k :: 0 <= k < |items| ==> ',' !in items[k]
    ensures JoinOrDash(items) != Missing || items == [Missing]
    ensures SplitOn(',', JoinOrDash(items)) == items
  {
    if |items| == 1 {
      SplitOnPiece(',', items[0], "");
    } else {
      var rest := items[1..];
      JoinOrDashRoundTrip(rest);
      assert items == [items[0]] + rest;
      JoinCons(",", items[0], rest);
      SplitOnPiece(',', items[0], Join(",", rest));
      assert JoinOrDash(items) != Missing by {
        assert JoinOrDash(items) == items[0] + "," + Join(",", rest);
        assert |JoinOrDash(items)| >= 2 || JoinOrDash(items)[0] == ',';
      }
    }
  }

  /** The comma-join is lossy: an item holding a comma reads as two items, and the
      literal text "-" reads as "no items". */
  lemma JoinOrDashAmbiguous()
    ensures JoinOrDash(["a,b"]) == JoinOrDash(["a", "b"])
    ensures JoinOrDash([Missing]) == JoinOrDash([])
    ensures JoinOrDash([""]) == ""
  {
  }
}
