/**
 * The résumé generator: Markdown entries (front matter already read into
 * `EntryData`) become one Typst document. `markdownToTypst` rewrites bold
 * text, drops link targets and escapes dollar signs, `contentToBullets` cuts
 * an entry's text into sentences, and `generateTypst` picks the entries of
 * each section, orders them and lays them out in the fixed template.
 *
 * Reading the Markdown files and writing `resume.typ` are not part of this
 * model; the entries are the input and the document text the output.
 */
module Resume {
  import opened Wrappers
  import opened JsString
  import opened StableSort

  // ------------------------------------------------------------ scanning

  /** Length of the longest prefix of `s` that does not contain `c`: what a greedy `[^c]+` can take. */
  function RunWithout(s: string, c: char): (n: nat)
    ensures n <= |s|
    ensures forall i :: 0 <= i < n ==> s[i] != c
    ensures n < |s| ==> s[n] == c
  {
    if s == [] || s[0] == c then 0 else 1 + RunWithout(s[1..], c)
  }

  lemma {:induction false} RunWithoutPrefix(x: string, y: string, c: char)
    requires forall i :: 0 <= i < |x| ==> x[i] != c
    requires |y| > 0 && y[0] == c
    ensures RunWithout(x + y, c) == |x|
  {
    if x != [] {
      assert (x + y)[1..] == x[1..] + y;
      RunWithoutPrefix(x[1..], y, c);
    }
  }

  // ------------------------------------------------------------ **bold**

  /** The length of the text captured by the pattern `\*\*([^*]+)\*\*` when it matches at the start of `s`. */
  function BoldAt(s: string): (m: Option<nat>)
    ensures m.Some? ==> 1 <= m.value && m.value + 4 <= |s|
  {
    if |s| >= 2 && s[0] == '*' && s[1] == '*' then
      var n := RunWithout(s[2..], '*');
      if n >= 1 && n + 4 <= |s| && s[n + 3] == '*' then Some(n) else None
    else None
  }

  /** `md.replace` of the global pattern `\*\*([^*]+)\*\*` by `*$1*`: matches are taken left to right and never overlap. */
  function Bold(s: string): (r: string)
    decreases |s|
  {
    if s == [] then []
    else match BoldAt(s)
      case Some(n) => "*" + s[2..n + 2] + "*" + Bold(s[n + 4..])
      case None => [s[0]] + Bold(s[1..])
  }

  /** `**x**`, for a non-empty `x` free of asterisks, becomes `*x*`. */
  lemma BoldPair(x: string)
    requires |x| > 0 && forall i :: 0 <= i < |x| ==> x[i] != '*'
    ensures Bold("**" + x + "**") == "*" + x + "*"
  {
    var t := x + "**";
    var s := "**" + t;
    assert s == "**" + x + "**";
    var n := |x|;
    assert s[0] == '*' && s[1] == '*' && s[n + 3] == '*';
    assert s[2..] == t;
    RunWithoutPrefix(x, "**", '*');
    assert BoldAt(s) == Some(n);
    assert s[2..n + 2] == x;
    assert s[n + 4..] == [];
    assert Bold(s) == "*" + x + "*" + Bold([]);
  }

  /** The characters of `s` other than `c`, in order. */
  function Drop(s: string, c: char): (r: string)
    ensures |r| <= |s|
  {
    if s == [] then [] else (if s[0] == c then [] else [s[0]]) + Drop(s[1..], c)
  }

  lemma {:induction false} DropAppend(a: string, b: string, c: char)
    ensures Drop(a + b, c) == Drop(a, c) + Drop(b, c)
  {
    if a != [] {
      assert (a + b)[0] == a[0] && (a + b)[1..] == a[1..] + b;
      DropAppend(a[1..], b, c);
      var h := if a[0] == c then [] else [a[0]];
      assert Drop(a + b, c) == h + (Drop(a[1..], c) + Drop(b, c));
      assert Drop(a, c) == h + Drop(a[1..], c);
    } else {
      assert a + b == b;
    }
  }

  lemma {:induction false} DropNone(a: string, c: char)
    requires forall i :: 0 <= i < |a| ==> a[i] != c
    ensures Drop(a, c) == a
  {
    if a != [] {
      DropNone(a[1..], c);
    }
  }

  /** The bold rewrite only ever removes asterisks: every other character survives, in order. */
  lemma {:induction false} BoldKeepsText(s: string)
    ensures Drop(Bold(s), '*') == Drop(s, '*')
    decreases |s|
  {
    if s != [] {
      match BoldAt(s)
      case Some(n) =>
        var x := s[2..n + 2];
        assert s == "**" + x + "**" + s[n + 4..];
        BoldKeepsText(s[n + 4..]);
        DropNone(x, '*');
        DropAppend("*" + x + "*", Bold(s[n + 4..]), '*');
        DropAppend("*" + x, "*", '*');
        DropAppend("*", x, '*');
        DropAppend("**" + x + "**", s[n + 4..], '*');
        DropAppend("**" + x, "**", '*');
        DropAppend("**", x, '*');
      case None =>
        assert s == [s[0]] + s[1..];
        BoldKeepsText(s[1..]);
        DropAppend([s[0]], Bold(s[1..]), '*');
        DropAppend([s[0]], s[1..], '*');
    }
  }

  /** Text without asterisks is left alone. */
  lemma {:induction false} BoldWithoutStars(s: string)
    requires forall i :: 0 <= i < |s| ==> s[i] != '*'
    ensures Bold(s) == s
  {
    if s != [] {
      assert BoldAt(s).None?;
      BoldWithoutStars(s[1..]);
    }
  }

  // ------------------------------------------------------------ [text](url)

  /**
   * When `/\[([^\]]+)\]\([^)]+\)/` matches at the start of `s`: the length
   * of the captured text and of the whole match.
   */
  function LinkAt(s: string): (m: Option<(nat, nat)>)
    ensures m.Some? ==> 1 <= m.value.0 && m.value.0 + 1 <= m.value.1 <= |s|
  {
    if |s| >= 1 && s[0] == '[' then
      var t := RunWithout(s[1..], ']');
      if t >= 1 && t + 3 <= |s| && s[t + 2] == '(' then
        var u := RunWithout(s[t + 3..], ')');
        if u >= 1 && t + u + 4 <= |s| then Some((t, t + u + 4)) else None
      else None
    else None
  }

  /** `result.replace(/\[([^\]]+)\]\([^)]+\)/g, "$1")`: each link is replaced by its text. */
  function Link(s: string): (r: string)
    decreases |s|
  {
    if s == [] then []
    else match LinkAt(s)
      case Some((t, len)) => s[1..t + 1] + Link(s[len..])
      case None => [s[0]] + Link(s[1..])
  }

  /** `[text](url)`, with `text` free of `]` and `url` free of `)`, both non-empty, becomes `text`. */
  lemma LinkPair(text: string, url: string)
    requires |text| > 0 && forall i :: 0 <= i < |text| ==> text[i] != ']'
    requires |url| > 0 && forall i :: 0 <= i < |url| ==> url[i] != ')'
    ensures Link("[" + text + "](" + url + ")") == text
  {
    var s := "[" + (text + ("](" + (url + ")")));
    Assoc5("[", text, "](", url, ")");
    LinkMatches(text, url);
    var t := |text|;
    assert s[1..t + 1] == text;
    assert s[t + |url| + 4..] == [];
    assert Link(s) == text + Link([]);
  }

  lemma LinkMatches(text: string, url: string)
    requires |text| > 0 && forall i :: 0 <= i < |text| ==> text[i] != ']'
    requires |url| > 0 && forall i :: 0 <= i < |url| ==> url[i] != ')'
    ensures LinkAt("[" + (text + ("](" + (url + ")")))) == Some((|text|, |text| + |url| + 4))
  {
    var v := url + ")";
    var w := "](" + v;
    var u := text + w;
    var s := "[" + u;
    var t := |text|;
    assert s[1..] == u;
    RunWithoutPrefix(text, w, ']');
    assert s[0] == '[' && s[t + 2] == '(';
    assert s[t + 3..] == v;
    RunWithoutPrefix(url, ")", ')');
  }

  lemma Assoc5(a: string, b: string, c: string, d: string, e: string)
    ensures a + b + c + d + e == a + (b + (c + (d + e)))
  {
  }

  /** Text without an opening bracket is left alone. */
  lemma {:induction false} LinkWithoutBrackets(s: string)
    requires forall i :: 0 <= i < |s| ==> s[i] != '['
    ensures Link(s) == s
  {
    if s != [] {
      assert LinkAt(s).None?;
      LinkWithoutBrackets(s[1..]);
    }
  }

  // ------------------------------------------------------------ $

  /** `result.replace(/\$/g, "\\$")`: every dollar sign gains a backslash in front. */
  function Escape(s: string): (r: string)
    ensures |r| >= |s|
    ensures s != [] ==> r != [] && r[0] != '$'
  {
    if s == [] then [] else (if s[0] == '$' then "\\$" else [s[0]]) + Escape(s[1..])
  }

  /** The reading a Typst renderer gives the escapes back: `\$` is a dollar sign. */
  function Unescape(s: string): (r: string)
  {
    if |s| >= 2 && s[0] == '\\' && s[1] == '$' then "$" + Unescape(s[2..])
    else if s == [] then []
    else [s[0]] + Unescape(s[1..])
  }

  /** Escaping loses nothing: undoing it gives the text back. */
  lemma {:induction false} UnescapeEscape(s: string)
    ensures Unescape(Escape(s)) == s
  {
    if s != [] {
      UnescapeEscape(s[1..]);
      var rest := Escape(s[1..]);
      if s[0] == '$' {
        assert Escape(s) == "\\$" + rest;
        assert (("\\$" + rest)[2..]) == rest;
      } else {
        assert Escape(s) == [s[0]] + rest;
        assert ([s[0]] + rest)[1..] == rest;
        assert s[0] == '\\' ==> rest == [] || rest[0] != '$';
      }
    }
  }

  /** In escaped text every dollar sign is preceded by a backslash. */
  lemma {:induction false} DollarsEscaped(s: string)
    ensures forall i :: 0 <= i < |Escape(s)| && Escape(s)[i] == '$' ==> i > 0 && Escape(s)[i - 1] == '\\'
  {
    if s != [] {
      DollarsEscaped(s[1..]);
      var head := if s[0] == '$' then "\\$" else [s[0]];
      var rest := Escape(s[1..]);
      assert Escape(s) == head + rest;
      forall i | 0 <= i < |head + rest| && (head + rest)[i] == '$'
        ensures i > 0 && (head + rest)[i - 1] == '\\'
      {
        if i >= |head| {
          assert s[1..] != [];
          assert rest[0] != '$';
          assert (head + rest)[i] == rest[i - |head|];
          assert i - |head| > 0;
          assert (head + rest)[i - 1] == rest[i - |head| - 1];
        }
      }
    }
  }

  // ------------------------------------------------------------ markdownToTypst

  /** `markdownToTypst`: bold first, then links, then dollar signs. */
  function MarkdownToTypst(md: string): (r: string)
  {
    Escape(Link(Bold(md)))
  }

  lemma {:induction false} BoldNonEmpty(s: string)
    ensures Bold(s) == [] <==> s == []
  {
  }

  lemma {:induction false} LinkNonEmpty(s: string)
    ensures Link(s) == [] <==> s == []
  {
  }

  /** Only empty Markdown gives empty Typst. */
  lemma MarkdownToTypstNonEmpty(md: string)
    ensures MarkdownToTypst(md) == [] <==> md == []
  {
    BoldNonEmpty(md);
    LinkNonEmpty(Bold(md));
  }

  /**
   * The escape comes last, so every dollar sign in the output is escaped,
   * including those inside rewritten bold text and link captions, and the
   * text before escaping can be read back.
   */
  lemma MarkdownToTypstEscapes(md: string)
    ensures var r := MarkdownToTypst(md);
      (forall i :: 0 <= i < |r| && r[i] == '$' ==> i > 0 && r[i - 1] == '\\') &&
      Unescape(r) == Link(Bold(md))
  {
    DollarsEscaped(Link(Bold(md)));
    UnescapeEscape(Link(Bold(md)));
  }

  /** Plain text with neither asterisks, brackets nor dollar signs comes through unchanged. */
  lemma MarkdownToTypstPlain(s: string)
    requires forall i :: 0 <= i < |s| ==> s[i] != '*' && s[i] != '[' && s[i] != '$'
    ensures MarkdownToTypst(s) == s
  {
    BoldWithoutStars(s);
    LinkWithoutBrackets(s);
    EscapePlain(s);
  }

  lemma {:induction false} EscapePlain(s: string)
    requires forall i :: 0 <= i < |s| ==> s[i] != '$'
    ensures Escape(s) == s
  {
    if s != [] {
      EscapePlain(s[1..]);
    }
  }

  // ------------------------------------------------------------ sentences

  predicate IsTerminator(c: char)
  {
    c == '.' || c == '!' || c == '?'
  }

  /** Where `/(?<=[.!?])\s+/` can match: white space right after a sentence terminator. */
  predicate SplitsAt(s: string, q: int)
  {
    1 <= q < |s| && IsTerminator(s[q - 1]) && IsSpace(s[q])
  }

  /** The first split position from `q` on. */
  function FirstSplit(s: string, q: nat): (r: Option<nat>)
    ensures r.Some? ==> q <= r.value < |s|
    decreases |s| - q
  {
    if q >= |s| then None
    else if SplitsAt(s, q) then Some(q)
    else FirstSplit(s, q + 1)
  }

  lemma {:induction false} FirstSplitSpec(s: string, q: nat)
    ensures var r := FirstSplit(s, q);
      (r.Some? ==> SplitsAt(s, r.value) && forall i :: q <= i < r.value ==> !SplitsAt(s, i)) &&
      (r.None? ==> forall i :: q <= i ==> !SplitsAt(s, i))
    decreases |s| - q
  {
    if q < |s| && !SplitsAt(s, q) {
      FirstSplitSpec(s, q + 1);
    }
  }

  /** Length of the run of white space that starts `s`: what the greedy `\s+` takes. */
  function SpaceRun(s: string): (n: nat)
    ensures n <= |s|
  {
    if s == [] || !IsSpace(s[0]) then 0 else 1 + SpaceRun(s[1..])
  }

  lemma {:induction false} SpaceRunSpec(s: string)
    ensures forall i :: 0 <= i < SpaceRun(s) ==> IsSpace(s[i])
    ensures SpaceRun(s) < |s| ==> !IsSpace(s[SpaceRun(s)])
  {
    if s != [] && IsSpace(s[0]) {
      SpaceRunSpec(s[1..]);
    }
  }

  /** `content.split(/(?<=[.!?])\s+/)`: the pieces between the matched runs of white space. */
  function SplitSentences(s: string): (pieces: seq<string>)
    ensures |pieces| >= 1
    decreases |s|
  {
    match FirstSplit(s, 0)
    case None => [s]
    case Some(q) =>
      var e := q + SpaceRun(s[q..]);
      [s[..q]] + SplitSentences(s[e..])
  }

  /** The runs of white space `split` removes, one between each two pieces. */
  function Separators(s: string): (seps: seq<string>)
    ensures |seps| == |SplitSentences(s)| - 1
    decreases |s|
  {
    match FirstSplit(s, 0)
    case None => []
    case Some(q) =>
      var e := q + SpaceRun(s[q..]);
      [s[q..e]] + Separators(s[e..])
  }

  /** Pieces glued back together with the separators between them. */
  function Interleave(pieces: seq<string>, seps: seq<string>): string
    requires |seps| == |pieces| - 1
  {
    if |pieces| == 1 then pieces[0] else pieces[0] + seps[0] + Interleave(pieces[1..], seps[1..])
  }

  /** Where the first break falls, `split` and `Separators` take off one piece and one separator. */
  function BreakEnd(s: string, q: nat): (e: nat)
    requires q <= |s|
    ensures q <= e <= |s|
  {
    q + SpaceRun(s[q..])
  }

  lemma SplitStep(s: string, q: nat)
    requires FirstSplit(s, 0) == Some(q)
    ensures SplitSentences(s) == [s[..q]] + SplitSentences(s[BreakEnd(s, q)..])
    ensures Separators(s) == [s[q..BreakEnd(s, q)]] + Separators(s[BreakEnd(s, q)..])
  {
  }

  /** Putting the removed white space back between the pieces gives the text: `split` loses nothing else. */
  lemma {:induction false} SplitRebuilds(s: string)
    ensures Interleave(SplitSentences(s), Separators(s)) == s
    decreases |s|
  {
    var first := FirstSplit(s, 0);
    if first.Some? {
      var q := first.value;
      var e := BreakEnd(s, q);
      SplitStep(s, q);
      SplitRebuilds(s[e..]);
      var pieces, seps := SplitSentences(s), Separators(s);
      assert pieces[1..] == SplitSentences(s[e..]) && seps[1..] == Separators(s[e..]);
      assert s == s[..q] + s[q..e] + s[e..];
    }
  }

  /** A non-empty piece that ends with `.`, `!` or `?`. */
  predicate EndsSentence(p: string)
  {
    |p| > 0 && IsTerminator(p[|p| - 1])
  }

  /** Every piece but the last is non-empty and ends a sentence. */
  lemma {:induction false} SplitPiecesEnd(s: string)
    ensures forall k :: 0 <= k < |SplitSentences(s)| - 1 ==> EndsSentence(SplitSentences(s)[k])
    decreases |s|
  {
    var first := FirstSplit(s, 0);
    if first.Some? {
      var q := first.value;
      var e := BreakEnd(s, q);
      SplitStep(s, q);
      SplitPiecesEnd(s[e..]);
      FirstSplitSpec(s, 0);
      var pieces, rest := SplitSentences(s), SplitSentences(s[e..]);
      assert pieces == [s[..q]] + rest;
      assert EndsSentence(pieces[0]) by {
        assert pieces[0] == s[..q] && IsTerminator(s[q - 1]);
      }
      forall k | 1 <= k < |pieces| - 1
        ensures EndsSentence(pieces[k])
      {
        assert pieces[k] == rest[k - 1];
      }
    }
  }

  /** A non-empty run of white space. */
  predicate AllSpace(t: string)
  {
    |t| > 0 && forall i :: 0 <= i < |t| ==> IsSpace(t[i])
  }

  /** The white space a break removes is a non-empty run of spaces. */
  lemma BreakIsSpace(s: string, q: nat)
    requires FirstSplit(s, 0) == Some(q)
    ensures AllSpace(s[q..BreakEnd(s, q)])
  {
    FirstSplitSpec(s, 0);
    assert SplitsAt(s, q);
    SpaceRunSpec(s[q..]);
    var t := s[q..BreakEnd(s, q)];
    forall i | 0 <= i < |t|
      ensures IsSpace(t[i])
    {
      assert t[i] == s[q..][i];
    }
  }

  /** Every separator is a non-empty run of white space. */
  lemma {:induction false} SeparatorsAreSpace(s: string)
    ensures forall k :: 0 <= k < |Separators(s)| ==> AllSpace(Separators(s)[k])
    decreases |s|
  {
    var first := FirstSplit(s, 0);
    if first.Some? {
      var q := first.value;
      var e := BreakEnd(s, q);
      SplitStep(s, q);
      SeparatorsAreSpace(s[e..]);
      BreakIsSpace(s, q);
      AllSpaceCons(s[q..e], Separators(s[e..]));
    }
  }

  lemma AllSpaceCons(x: string, rest: seq<string>)
    requires AllSpace(x) && forall k :: 0 <= k < |rest| ==> AllSpace(rest[k])
    ensures forall k :: 0 <= k < |[x] + rest| ==> AllSpace(([x] + rest)[k])
  {
    forall k | 1 <= k < |[x] + rest|
      ensures AllSpace(([x] + rest)[k])
    {
      assert ([x] + rest)[k] == rest[k - 1];
    }
  }

  /** No terminator followed by white space is left inside the piece. */
  predicate Whole(p: string)
  {
    forall i :: 0 <= i < |p| ==> !SplitsAt(p, i)
  }

  /** The text before the first break is whole. */
  lemma PrefixWhole(s: string, q: nat)
    requires FirstSplit(s, 0) == Some(q) || (FirstSplit(s, 0) == None && q == |s|)
    ensures q <= |s| && Whole(s[..q])
  {
    FirstSplitSpec(s, 0);
    forall i | 0 <= i < q
      ensures !SplitsAt(s[..q], i)
    {
      if SplitsAt(s[..q], i) {
        assert s[..q][i - 1] == s[i - 1] && s[..q][i] == s[i];
        assert SplitsAt(s, i);
      }
    }
  }

  /** No piece still holds a terminator followed by white space: the split is complete. */
  lemma {:induction false} SplitPiecesWhole(s: string)
    ensures forall k :: 0 <= k < |SplitSentences(s)| ==> Whole(SplitSentences(s)[k])
    decreases |s|
  {
    match FirstSplit(s, 0)
    case None =>
      assert SplitSentences(s) == [s];
      assert s[..|s|] == s;
      PrefixWhole(s, |s|);
    case Some(q) =>
      var e := BreakEnd(s, q);
      SplitStep(s, q);
      SplitPiecesWhole(s[e..]);
      var pieces, rest := SplitSentences(s), SplitSentences(s[e..]);
      assert pieces == [s[..q]] + rest;
      PrefixWhole(s, q);
      forall k | 1 <= k < |pieces|
        ensures Whole(pieces[k])
      {
        assert pieces[k] == rest[k - 1];
      }
  }

  /** The sentences `contentToBullets` keeps: each piece trimmed, empty ones dropped. */
  function Sentences(pieces: seq<string>): (r: seq<string>)
    ensures |r| <= |pieces|
    ensures forall i :: 0 <= i < |r| ==> |r[i]| > 0
  {
    if pieces == [] then []
    else
      var t := Trim(pieces[0]);
      (if t == [] then [] else [t]) + Sentences(pieces[1..])
  }

  /** Text with no white space at either end. */
  predicate Trimmed(t: string)
  {
    |t| > 0 && !IsSpace(t[0]) && !IsSpace(t[|t| - 1])
  }

  /** Every kept sentence is a trimmed piece: it neither starts nor ends with white space. */
  lemma {:induction false} SentencesTrimmed(pieces: seq<string>)
    ensures forall i :: 0 <= i < |Sentences(pieces)| ==> Trimmed(Sentences(pieces)[i])
  {
    if pieces != [] {
      SentencesTrimmed(pieces[1..]);
      TrimmedEnds(pieces[0]);
      var t := Trim(pieces[0]);
      var r, rest := Sentences(pieces), Sentences(pieces[1..]);
      if t == [] {
        assert r == rest;
      } else {
        assert r == [t] + rest;
        forall i | 1 <= i < |r|
          ensures Trimmed(r[i])
        {
          assert r[i] == rest[i - 1];
          assert Trimmed(rest[i - 1]);
        }
      }
    }
  }

  lemma TrimmedEnds(s: string)
    ensures Trim(s) == [] || Trimmed(Trim(s))
  {
    var a := TrimStart(s);
    var t := TrimEnd(a);
    if t != [] {
      assert t == a[..|t|];
      assert t[0] == a[0];
    }
  }

  /** `contentToBullets`: one bullet per kept sentence, each the sentence in Typst. */
  function ContentToBullets(content: string): (bullets: seq<string>)
    ensures var sentences := Sentences(SplitSentences(content));
      |bullets| == |sentences| && forall i :: 0 <= i < |bullets| ==> bullets[i] == MarkdownToTypst(sentences[i])
    ensures forall i :: 0 <= i < |bullets| ==> |bullets[i]| > 0
  {
    var sentences := Sentences(SplitSentences(content));
    assert forall i :: 0 <= i < |sentences| ==> MarkdownToTypst(sentences[i]) != [] by {
      forall i | 0 <= i < |sentences| {
        MarkdownToTypstNonEmpty(sentences[i]);
      }
    }
    seq(|sentences|, i requires 0 <= i < |sentences| => MarkdownToTypst(sentences[i]))
  }

  /** Text with no sentence break gives at most one bullet: the whole text, trimmed. */
  lemma OneSentence(content: string)
    requires forall i :: !SplitsAt(content, i)
    ensures ContentToBullets(content) == if Trim(content) == [] then [] else [MarkdownToTypst(Trim(content))]
  {
    FirstSplitSpec(content, 0);
    assert FirstSplit(content, 0).None?;
    assert SplitSentences(content) == [content];
  }

  // ------------------------------------------------------------ entries

  /** The front matter of one résumé file; the optional fields are `undefined` when absent. */
  datatype EntryData = EntryData(
    section: string, order: real,
    company: string, companyNote: Option<string>, title: string, location: string, dates: string,
    caseStudy: Option<string>, institution: string, degree: string)

  datatype Entry = Entry(data: EntryData, content: string)

  /** The comparator `(a, b) => a.data.order - b.data.order`. */
  function OrderKey(e: Entry): real
  {
    e.data.order
  }

  /** `entries.filter(e => e.data.section === section)`. */
  function InSection(entries: seq<Entry>, section: string): (r: seq<Entry>)
    ensures |r| <= |entries|
    ensures forall e :: e in r ==> e in entries && e.data.section == section
  {
    if entries == [] then []
    else (if entries[0].data.section == section then [entries[0]] else []) + InSection(entries[1..], section)
  }

  lemma {:induction false} InSectionAppend(a: seq<Entry>, b: seq<Entry>, section: string)
    ensures InSection(a + b, section) == InSection(a, section) + InSection(b, section)
  {
    if a != [] {
      var ab := a + b;
      assert ab != [] && ab[0] == a[0] && ab[1..] == a[1..] + b;
      InSectionAppend(a[1..], b, section);
      var h := if a[0].data.section == section then [a[0]] else [];
      var x, y := InSection(a[1..], section), InSection(b, section);
      assert InSection(ab, section) == h + InSection(ab[1..], section);
      assert InSection(a, section) == h + x;
      assert h + (x + y) == (h + x) + y;
    } else {
      assert a + b == b;
    }
  }

  /** Every entry of the section is kept, as often as it occurs. */
  lemma {:induction false} InSectionComplete(entries: seq<Entry>, section: string)
    ensures forall e: Entry :: e.data.section == section ==> multiset(InSection(entries, section))[e] == multiset(entries)[e]
    ensures forall e: Entry :: e.data.section != section ==> multiset(InSection(entries, section))[e] == 0
  {
    if entries != [] {
      InSectionComplete(entries[1..], section);
      assert entries == [entries[0]] + entries[1..];
    }
  }

  /** One section's entries, filtered and then sorted by `order`. */
  function SectionEntries(entries: seq<Entry>, section: string): (r: seq<Entry>)
  {
    SortBy(InSection(entries, section), OrderKey)
  }

  /**
   * The experience, volunteer and education lists: exactly the entries of
   * their section, each as often as in the input, in ascending `order`, with
   * entries of equal order in their input order.
   */
  lemma SectionEntriesSpec(entries: seq<Entry>, section: string)
    ensures var r := SectionEntries(entries, section);
      SortedBy(r, OrderKey) &&
      (forall e :: e in r ==> e.data.section == section) &&
      (forall e: Entry :: e.data.section == section ==> multiset(r)[e] == multiset(entries)[e]) &&
      (forall k :: WithKey(r, OrderKey, k) == WithKey(InSection(entries, section), OrderKey, k))
  {
    SortByCorrect(InSection(entries, section), OrderKey);
    InSectionComplete(entries, section);
    var r := SectionEntries(entries, section);
    forall e | e in r
      ensures e.data.section == section
    {
      assert e in multiset(r);
    }
  }

  /** `entries.find(e => e.data.section === section)`. */
  function Find(entries: seq<Entry>, section: string): (r: Option<Entry>)
    ensures r.Some? ==> r.value in entries && r.value.data.section == section
    ensures r.None? ==> forall e :: e in entries ==> e.data.section != section
  {
    if entries == [] then None
    else if entries[0].data.section == section then Some(entries[0])
    else Find(entries[1..], section)
  }

  /** The summary paragraph: the first summary entry in Typst, or nothing. */
  function SummaryText(entries: seq<Entry>): (r: string)
    ensures Find(entries, "summary").None? ==> r == ""
    ensures Find(entries, "summary").Some? ==> r == MarkdownToTypst(Find(entries, "summary").value.content)
  {
    match Find(entries, "summary")
    case None => ""
    case Some(e) => MarkdownToTypst(e.content)
  }

  // ------------------------------------------------------------ layout

  /** A JavaScript truthiness test on an optional string: present and not empty. */
  predicate Truthy(o: Option<string>)
  {
    o.Some? && o.value != ""
  }

  /** `array.join(sep)`. */
  function Join(xs: seq<string>, sep: string): string
  {
    if xs == [] then "" else if |xs| == 1 then xs[0] else xs[0] + sep + Join(xs[1..], sep)
  }

  /** The bullet lines of an entry, `    [b],` each. */
  function BulletLines(bullets: seq<string>): string
  {
    Join(seq(|bullets|, i requires 0 <= i < |bullets| => "    [" + bullets[i] + "],"), "\n")
  }

  /** The site the `caseStudy:` links are made absolute against. */
  const SITE_URL := "https://simonbukin.com"

  /**
   * An optional `name:` parameter of `#entry`, written only for a truthy
   * field: `note:` with the text as it is, `caseStudy:` with `SITE_URL` in front.
   */
  function OptionalParam(name: string, prefix: string, value: Option<string>): (r: string)
    ensures r == "" <==> !Truthy(value)
    ensures Truthy(value) ==> r == "\n  " + name + ": \"" + prefix + value.value + "\","
  {
    if Truthy(value) then "\n  " + name + ": \"" + prefix + value.value + "\"," else ""
  }

  /** The `#entry(...)` call shared by experience and volunteer entries, up to its optional parameters. */
  function EntryCall(d: EntryData, content: string): string
  {
    "#entry(\n  \"" + d.company + "\",\n  \"" + d.dates + "\",\n  \"" + d.title + "\",\n  \"" + d.location +
    "\",\n  (\n" + BulletLines(ContentToBullets(content)) + "\n  ),"
  }

  function ExperienceText(e: Entry): string
  {
    EntryCall(e.data, e.content) + OptionalParam("note", "", e.data.companyNote) + OptionalParam("caseStudy", SITE_URL, e.data.caseStudy) + "\n)"
  }

  /** Volunteer entries never carry a note, whatever their front matter says. */
  function VolunteerText(e: Entry): string
  {
    EntryCall(e.data, e.content) + OptionalParam("caseStudy", SITE_URL, e.data.caseStudy) + "\n)"
  }

  function EducationText(e: Entry): string
  {
    "#education-entry(\n  \"" + e.data.institution + "\",\n  \"" + e.data.dates + "\",\n  \"" + e.data.degree + "\",\n)"
  }

  /** The optional parameters appear exactly when their fields are truthy, the note before the case study. */
  lemma ExperienceParams(e: Entry)
    ensures ExperienceText(e) ==
      EntryCall(e.data, e.content) +
      (if Truthy(e.data.companyNote) then "\n  note: \"" + e.data.companyNote.value + "\"," else "") +
      (if Truthy(e.data.caseStudy) then "\n  caseStudy: \"" + SITE_URL + e.data.caseStudy.value + "\"," else "") +
      "\n)"
    ensures VolunteerText(e) == VolunteerText(e.(data := e.data.(companyNote := None)))
  {
    var note := OptionalParam("note", "", e.data.companyNote);
    var caseStudy := OptionalParam("caseStudy", SITE_URL, e.data.caseStudy);
    if Truthy(e.data.companyNote) {
      assert "" + e.data.companyNote.value == e.data.companyNote.value;
    }
    assert note == if Truthy(e.data.companyNote) then "\n  note: \"" + e.data.companyNote.value + "\"," else "";
    assert caseStudy == if Truthy(e.data.caseStudy) then "\n  caseStudy: \"" + SITE_URL + e.data.caseStudy.value + "\"," else "";
  }

  function RenderAll(entries: seq<Entry>, render: Entry -> string): string
  {
    Join(seq(|entries|, i requires 0 <= i < |entries| => render(entries[i])), "\n\n")
  }

  /** The fixed head of the document, up to the opening bracket of the summary paragraph. */
  const PREAMBLE: string :=
    "// Resume template for Simon Bukin\n" +
    "// Auto-generated from markdown content - do not edit directly\n" +
    "// Compile with: typst compile resume.typ resume.pdf\n" +
    "\n" +
    "#set page(\n" +
    "  paper: \"us-letter\",\n" +
    "  margin: (top: 0.35in, bottom: 0.35in, left: 0.5in, right: 0.5in),\n" +
    ")\n" +
    "\n" +
    "#set text(\n" +
    "  font: \"SF Pro Text\",\n" +
    "  size: 9.5pt,\n" +
    "  fill: rgb(\"#374151\"),\n" +
    ")\n" +
    "\n" +
    "#set par(\n" +
    "  leading: 0.45em,\n" +
    "  justify: false,\n" +
    ")\n" +
    "\n" +
    "// Colors\n" +
    "#let subtle = rgb(\"#6b7280\")\n" +
    "#let link-color = rgb(\"#6366f1\")\n" +
    "\n" +
    "// Section header\n" +
    "#let section(title) = {\n" +
    "  v(0.35em)\n" +
    "  text(size: 8pt, weight: \"bold\", fill: subtle, upper(title))\n" +
    "  v(-0.3em)\n" +
    "  line(length: 100%, stroke: 0.4pt + subtle)\n" +
    "  v(0.15em)\n" +
    "}\n" +
    "\n" +
    "// Resume entry with bullets\n" +
    "#let entry(company, dates, title, location, bullets, note: none, caseStudy: none) = {\n" +
    "  grid(\n" +
    "    columns: (1fr, auto),\n" +
    "    gutter: 0.5em,\n" +
    "    row-gutter: 0pt,\n" +
    "    [\n" +
    "      #text(weight: \"bold\")[#company]#if note != none [ #text(fill: subtle)[#note]]\n" +
    "    ],\n" +
    "    align(right, text(size: 8.5pt, fill: subtle)[#dates]),\n" +
    "  )\n" +
    "  v(-0.4em)\n" +
    "  if caseStudy != none {\n" +
    "    [#text(size: 8.5pt, fill: subtle)[#title · #location] #link(caseStudy)[#text(size: 8pt, fill: link-color)[Case study ↗]]]\n" +
    "  } else {\n" +
    "    text(size: 8.5pt, fill: subtle)[#title · #location]\n" +
    "  }\n" +
    "  v(0.05em)\n" +
    "  for (i, bullet) in bullets.enumerate() {\n" +
    "    box[#text(size: 8.5pt, fill: subtle)[•] #text(size: 8.5pt)[#bullet]]\n" +
    "    if i < bullets.len() - 1 { linebreak() }\n" +
    "  }\n" +
    "  v(0.3em)\n" +
    "}\n" +
    "\n" +
    "// Education entry\n" +
    "#let education-entry(institution, dates, degree) = {\n" +
    "  grid(\n" +
    "    columns: (1fr, auto),\n" +
    "    gutter: 0.5em,\n" +
    "    text(weight: \"bold\")[#institution],\n" +
    "    align(right, text(size: 8.5pt, fill: subtle)[#dates]),\n" +
    "  )\n" +
    "  text(size: 8.5pt, fill: subtle)[#degree]\n" +
    "}\n" +
    "\n" +
    "// Header\n" +
    "#align(center)[\n" +
    "  #text(size: 18pt, weight: \"bold\", font: \"SF Pro Display\")[Simon Bukin]\n" +
    "  #v(-0.35em)\n" +
    "  #text(size: 8.5pt, fill: subtle)[\n" +
    "    San Francisco, CA #h(0.4em) · #h(0.4em)\n" +
    "    #link(\"mailto:simonbukin@gmail.com\")[#text(fill: link-color)[simonbukin\\@gmail.com]] #h(0.4em) · #h(0.4em)\n" +
    "    #link(\"https://simonbukin.com\")[#text(fill: link-color)[simonbukin.com]]\n" +
    "  ]\n" +
    "]\n" +
    "\n" +
    "#v(0.2em)\n" +
    "\n" +
    "// Summary\n" +
    "#text(size: 9.5pt)["

  /**
   * `generateTypst`: the template with the summary and the three sections
   * filled in, the entries of each section joined by blank lines.
   */
  function GenerateTypst(entries: seq<Entry>): (doc: string)
  {
    PREAMBLE + SummaryText(entries) + "]\n\n// Experience\n#section(\"Experience\")\n\n" +
    RenderAll(SectionEntries(entries, "experience"), ExperienceText) +
    "\n\n// Open Source & Volunteer\n#section(\"Open Source & Volunteer\")\n\n" +
    RenderAll(SectionEntries(entries, "volunteer"), VolunteerText) +
    "\n\n// Education\n#section(\"Education\")\n\n" +
    RenderAll(SectionEntries(entries, "education"), EducationText) + "\n"
  }

  /** An entry of any other section is ignored: adding it changes nothing in the document. */
  lemma OtherSectionsIgnored(entries: seq<Entry>, extra: Entry)
    requires extra.data.section !in {"summary", "experience", "volunteer", "education"}
    ensures GenerateTypst(entries + [extra]) == GenerateTypst(entries)
  {
    SectionIgnores(entries, extra, "experience");
    SectionIgnores(entries, extra, "volunteer");
    SectionIgnores(entries, extra, "education");
    FindAppend(entries, extra, "summary");
    assert SummaryText(entries + [extra]) == SummaryText(entries);
  }

  lemma SectionIgnores(entries: seq<Entry>, extra: Entry, section: string)
    requires extra.data.section != section
    ensures SectionEntries(entries + [extra], section) == SectionEntries(entries, section)
  {
    InSectionAppend(entries, [extra], section);
    assert InSection([extra], section) == [];
    assert InSection(entries + [extra], section) == InSection(entries, section);
  }

  lemma {:induction false} FindAppend(entries: seq<Entry>, extra: Entry, section: string)
    requires extra.data.section != section
    ensures Find(entries + [extra], section) == Find(entries, section)
  {
    if entries != [] {
      assert (entries + [extra])[1..] == entries[1..] + [extra];
      FindAppend(entries[1..], extra, section);
    }
  }

  /** Only the first summary entry counts; later ones are ignored. */
  lemma FirstSummaryWins(entries: seq<Entry>, later: Entry)
    requires Find(entries, "summary").Some?
    ensures SummaryText(entries + [later]) == SummaryText(entries)
  {
    FindPrefix(entries, [later], "summary");
  }

  lemma {:induction false} FindPrefix(a: seq<Entry>, b: seq<Entry>, section: string)
    requires Find(a, section).Some?
    ensures Find(a + b, section) == Find(a, section)
  {
    assert a != [];
    if a[0].data.section != section {
      assert (a + b)[1..] == a[1..] + b;
      FindPrefix(a[1..], b, section);
    }
  }
}
