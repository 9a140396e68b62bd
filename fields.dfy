/** Whitespace tokenisation of a command line, as Go's strings.Fields does it:
    the maximal runs of non-white-space characters, in order, with the empty
    ones dropped. White space is what Go's unicode.IsSpace reports. */
module Fields {

  /** Go's unicode.IsSpace: the Latin-1 spaces plus the rest of Unicode's White_Space property. */
  predicate IsSpace(c: char) {
    || c == '\t' || c == '\n' || c == '\U{000B}' || c == '\U{000C}' || c == '\r' || c == ' '
    || c == '\U{0085}' || c == '\U{00A0}' || c == '\U{1680}'
    || ('\U{2000}' <= c <= '\U{200A}')
    || c == '\U{2028}' || c == '\U{2029}' || c == '\U{202F}' || c == '\U{205F}' || c == '\U{3000}'
  }

  predicate AllSpace(s: string) {
    forall i :: 0 <= i < |s| ==> IsSpace(s[i])
  }

  /** A token strings.Fields can produce: non-empty, with no white space in it. */
  predicate IsWord(w: string) {
    w != [] && forall i :: 0 <= i < |w| ==> !IsSpace(w[i])
  }

  predicate AllWords(ts: seq<string>) {
    forall k :: 0 <= k < |ts| ==> IsWord(ts[k])
  }

  /** Length of the longest white-space prefix of s. */
  function SpanSpace(s: string): (n: nat)
    ensures n <= |s|
    ensures forall i :: 0 <= i < n ==> IsSpace(s[i])
    ensures n < |s| ==> !IsSpace(s[n])
  {
    if s == [] || !IsSpace(s[0]) then 0 else 1 + SpanSpace(s[1..])
  }

  /** Length of the longest prefix of s without white space. */
  function SpanWord(s: string): (n: nat)
    ensures n <= |s|
    ensures forall i :: 0 <= i < n ==> !IsSpace(s[i])
    ensures n < |s| ==> IsSpace(s[n])
  {
    if s == [] || IsSpace(s[0]) then 0 else 1 + SpanWord(s[1..])
  }

  /** strings.Fields: skip the leading white space, take the word that follows, repeat. */
  function Fields(s: string): (ts: seq<string>)
    ensures AllWords(ts)
    decreases |s|
  {
    var lead := SpanSpace(s);
    if lead == |s| then []
    else
      var rest := s[lead..];
      var n := SpanWord(rest);
      [rest[..n]] + Fields(rest[n..])
  }

  /** The white-space runs around and between the tokens of s, in order:
      the companion of Fields that keeps what Fields throws away. */
  function Gaps(s: string): seq<string>
    decreases |s|
  {
    var lead := SpanSpace(s);
    if lead == |s| then [s]
    else
      var rest := s[lead..];
      var n := SpanWord(rest);
      [s[..lead]] + Gaps(rest[n..])
  }

  /** gaps[0] + ts[0] + gaps[1] + ts[1] + ... + ts[n-1] + gaps[n]. */
  function Layout(gaps: seq<string>, ts: seq<string>): string
    requires |gaps| == |ts| + 1
  {
    if ts == [] then gaps[0] else gaps[0] + ts[0] + Layout(gaps[1..], ts[1..])
  }

  /** Runs that may stand between tokens: all white space, and the inner ones non-empty
      (the first and the last, before the first and after the last token, may be empty). */
  predicate Separates(gaps: seq<string>) {
    && (forall i :: 0 <= i < |gaps| ==> AllSpace(gaps[i]))
    && (forall i :: 0 < i < |gaps| - 1 ==> gaps[i] != [])
  }

  /** s is the tokens ts laid out with some admissible white space around and between them. */
  ghost predicate IsLayoutOf(s: string, ts: seq<string>) {
    exists gaps :: |gaps| == |ts| + 1 && Separates(gaps) && Layout(gaps, ts) == s
  }

  /** strings.Join. */
  function Join(ts: seq<string>, sep: string): string {
    if ts == [] then [] else if |ts| == 1 then ts[0] else ts[0] + sep + Join(ts[1..], sep)
  }

  lemma SpanSpaceOf(g: string, t: string)
    requires AllSpace(g)
    requires t == [] || !IsSpace(t[0])
    ensures SpanSpace(g + t) == |g|
  {
    assert forall i :: 0 <= i < |g| ==> (g + t)[i] == g[i];
    assert |g| < |g + t| ==> (g + t)[|g|] == t[0];
  }

  lemma SpanWordOf(w: string, t: string)
    requires forall i :: 0 <= i < |w| ==> !IsSpace(w[i])
    requires t == [] || IsSpace(t[0])
    ensures SpanWord(w + t) == |w|
  {
    assert forall i :: 0 <= i < |w| ==> (w + t)[i] == w[i];
    assert |w| < |w + t| ==> (w + t)[|w|] == t[0];
  }

  /** A layout whose first gap is non-empty starts with white space. */
  lemma LayoutStartsWithGap(gaps: seq<string>, ts: seq<string>)
    requires |gaps| == |ts| + 1
    requires gaps[0] != []
    ensures Layout(gaps, ts) != [] && Layout(gaps, ts)[0] == gaps[0][0]
  {
  }

  /** Soundness of the layout view: tokenising any admissible layout of words gives the words back. */
  lemma {:induction false} FieldsOfLayout(gaps: seq<string>, ts: seq<string>)
    requires |gaps| == |ts| + 1
    requires Separates(gaps)
    requires AllWords(ts)
    ensures Fields(Layout(gaps, ts)) == ts
    decreases |ts|
  {
    var s := Layout(gaps, ts);
    if ts == [] {
      SpanSpaceOf(gaps[0], []);
      assert gaps[0] + [] == gaps[0];
    } else {
      var g, w, tail := gaps[0], ts[0], Layout(gaps[1..], ts[1..]);
      assert s == g + (w + tail);
      assert Separates(gaps[1..]) by {
        forall i | 0 < i < |gaps[1..]| - 1 ensures gaps[1..][i] != [] {
          assert gaps[1..][i] == gaps[i + 1];
        }
        forall i | 0 <= i < |gaps[1..]| ensures AllSpace(gaps[1..][i]) {
          assert gaps[1..][i] == gaps[i + 1];
        }
      }
      assert AllWords(ts[1..]) by {
        forall k | 0 <= k < |ts[1..]| ensures IsWord(ts[1..][k]) {
          assert ts[1..][k] == ts[k + 1];
        }
      }
      assert IsWord(w);
      assert (w + tail)[0] == w[0];
      SpanSpaceOf(g, w + tail);
      assert s[|g|..] == w + tail;
      assert tail == [] || IsSpace(tail[0]) by {
        if ts[1..] != [] {
          assert 0 < 1 < |gaps| - 1;
          LayoutStartsWithGap(gaps[1..], ts[1..]);
          assert AllSpace(gaps[1]);
        } else {
          assert tail == gaps[1];
          assert AllSpace(gaps[1]);
        }
      }
      SpanWordOf(w, tail);
      assert (w + tail)[..|w|] == w;
      assert (w + tail)[|w|..] == tail;
      FieldsOfLayout(gaps[1..], ts[1..]);
    }
  }

  /** Prefixing an all-white-space run to admissible gaps keeps them admissible,
      provided the run it pushes inward is not empty. */
  lemma SeparatesCons(g: string, gs: seq<string>)
    requires AllSpace(g) && Separates(gs)
    requires |gs| > 1 ==> gs[0] != []
    ensures Separates([g] + gs)
  {
  }

  /** Where s splits: its leading white space, its first token, and what follows. */
  lemma SplitFirst(s: string) returns (lead: nat, w: string, r: string)
    requires SpanSpace(s) < |s|
    ensures lead == SpanSpace(s)
    ensures s == s[..lead] + w + r
    ensures Gaps(s) == [s[..lead]] + Gaps(r)
    ensures Fields(s) == [w] + Fields(r)
    ensures r != [] ==> IsSpace(r[0])
    ensures |r| < |s|
  {
    lead := SpanSpace(s);
    var rest := s[lead..];
    var n := SpanWord(rest);
    w, r := rest[..n], rest[n..];
    assert s == s[..lead] + (w + r);
  }

  /** Completeness of the layout view, first half: every string is its own tokens
      laid out with its own gaps. */
  lemma {:induction false} GapsLayout(s: string)
    ensures |Gaps(s)| == |Fields(s)| + 1
    ensures Layout(Gaps(s), Fields(s)) == s
    decreases |s|
  {
    if SpanSpace(s) < |s| {
      var lead, w, r := SplitFirst(s);
      GapsLayout(r);
      var gs, ts := Gaps(s), Fields(s);
      assert gs[1..] == Gaps(r) && ts[1..] == Fields(r);
      assert Layout(gs, ts) == s[..lead] + w + Layout(Gaps(r), Fields(r));
    }
  }

  /** Completeness of the layout view, second half: the gaps of a string are admissible. */
  lemma {:induction false} GapsSeparate(s: string)
    ensures Separates(Gaps(s))
    ensures s != [] && IsSpace(s[0]) ==> Gaps(s)[0] != []
    decreases |s|
  {
    if SpanSpace(s) < |s| {
      var lead, w, r := SplitFirst(s);
      GapsSeparate(r);
      GapsLayout(r);
      assert |Gaps(r)| > 1 ==> r != [];
      SeparatesCons(s[..lead], Gaps(r));
    }
  }

  /** Fields(s) == ts exactly when ts are words and s is a layout of them: the tokens are
      the maximal non-white-space runs of s, none dropped, none split, in order. */
  lemma FieldsCharacterised(s: string, ts: seq<string>)
    ensures Fields(s) == ts <==> AllWords(ts) && IsLayoutOf(s, ts)
  {
    if Fields(s) == ts {
      GapsLayout(s);
      GapsSeparate(s);
    }
    if AllWords(ts) && IsLayoutOf(s, ts) {
      var gaps :| |gaps| == |ts| + 1 && Separates(gaps) && Layout(gaps, ts) == s;
      FieldsOfLayout(gaps, ts);
    }
  }

  /** A command line has a first token exactly when it is not all white space. */
  lemma FieldsEmptyIff(s: string)
    ensures Fields(s) == [] <==> AllSpace(s)
  {
  }

  /** The gaps that Join with the separator sep lays its tokens out with. */
  function JoinGaps(n: nat, sep: string): (gaps: seq<string>)
    ensures |gaps| == n + 1
  {
    if n == 0 then [[]] else if n == 1 then [[], []] else [[]] + [sep] + JoinGaps(n - 1, sep)[1..]
  }

  lemma {:induction false} JoinIsLayout(ts: seq<string>, sep: string)
    ensures Join(ts, sep) == Layout(JoinGaps(|ts|, sep), ts)
    ensures forall i :: 0 < i < |ts| ==> JoinGaps(|ts|, sep)[i] == sep
    ensures JoinGaps(|ts|, sep)[0] == [] && JoinGaps(|ts|, sep)[|ts|] == []
    decreases |ts|
  {
    if |ts| > 1 {
      JoinIsLayout(ts[1..], sep);
      var gs, gs' := JoinGaps(|ts|, sep), JoinGaps(|ts| - 1, sep);
      assert gs[1..] == [sep] + gs'[1..];
      assert gs[1..] == gs'[0 := sep];
      var tail := Layout(gs', ts[1..]);
      assert tail == [] + ts[1] + Layout(gs'[1..], ts[1..][1..]);
      assert Layout(gs[1..], ts[1..]) == sep + ts[1] + Layout(gs'[1..], ts[1..][1..]);
      assert Join(ts, sep) == ts[0] + sep + tail;
    }
  }

  /** Round trip: joining words with a white-space separator and tokenising again gives the words. */
  lemma FieldsOfJoin(ts: seq<string>, sep: string)
    requires AllWords(ts)
    requires sep != [] && AllSpace(sep)
    ensures Fields(Join(ts, sep)) == ts
  {
    JoinIsLayout(ts, sep);
    FieldsOfLayout(JoinGaps(|ts|, sep), ts);
  }

  /** Normalising a command line's white space to single blanks keeps its tokens. */
  lemma FieldsOfNormalised(s: string)
    ensures Fields(Join(Fields(s), " ")) == Fields(s)
  {
    FieldsOfJoin(Fields(s), " ");
  }
}
