/**
 * Splitting a passage into typing units (src/game/split/mod.rs) and the joins that undo
 * the split.
 *
 * Grapheme-cluster segmentation (Unicode Standard Annex #29) and display width (Unicode
 * Standard Annex #11) come from external libraries. The model takes them as a `Unicode`
 * value of two functions about which only the concatenation law is known: the clusters of
 * a string are non-empty and concatenate back to the string.
 */
module Split {

  datatype Unicode = Unicode(graphemes: string -> seq<string>, width: string -> nat)

  /** The concatenation law of grapheme segmentation. */
  ghost predicate Lawful(u: Unicode)
  {
    forall s: string ::
      Concat(u.graphemes(s)) == s &&
      forall i :: 0 <= i < |u.graphemes(s)| ==> u.graphemes(s)[i] != []
  }

  /** Concatenation of pieces with no separator. */
  function Concat(parts: seq<string>): string
  {
    if parts == [] then [] else parts[0] + Concat(parts[1..])
  }

  /** `join(" ")`: pieces separated by single spaces. */
  function JoinSpace(words: seq<string>): string
  {
    if words == [] then []
    else if |words| == 1 then words[0]
    else words[0] + " " + JoinSpace(words[1..])
  }

  /** Number of occurrences of `c` in `s`. */
  function Occurrences(s: string, c: char): nat
  {
    if s == [] then 0 else (if s[0] == c then 1 else 0) + Occurrences(s[1..], c)
  }

  /** True iff the first grapheme cluster of `passage` is two columns wide. The source
      aborts on an empty passage (no first cluster), hence the precondition. */
  predicate IsWideCharacter(u: Unicode, passage: string): (wide: bool)
    requires Lawful(u) && passage != []
    ensures var g := u.graphemes(passage);
            g != [] && g[0] != [] && g[0] <= passage && (wide <==> u.width(g[0]) == 2)
  {
    assert Concat(u.graphemes(passage)) == passage;
    u.width(u.graphemes(passage)[0]) == 2
  }

  /** `str::split(' ')`: every single space separates two pieces, so runs of spaces and
      leading or trailing spaces produce empty pieces. */
  function SplitOnSpace(s: string): (pieces: seq<string>)
    ensures |pieces| == Occurrences(s, ' ') + 1
    ensures JoinSpace(pieces) == s
    ensures forall i :: 0 <= i < |pieces| ==> ' ' !in pieces[i]
    decreases |s|
  {
    if s == [] then [[]]
    else
      var rest := SplitOnSpace(s[1..]);
      if s[0] == ' ' then
        assert JoinSpace([[]] + rest) == [] + " " + JoinSpace(rest);
        assert s == [' '] + s[1..];
        [[]] + rest
      else
        var pieces := [[s[0]] + rest[0]] + rest[1..];
        assert s == [s[0]] + s[1..];
        JoinGlue(s[0], rest);
        assert forall i :: 1 <= i < |pieces| ==> pieces[i] == rest[i];
        pieces
  }

  /** A character glued onto the first piece lands in front of the join. */
  lemma {:induction false} JoinGlue(c: char, rest: seq<string>)
    requires |rest| >= 1
    ensures JoinSpace([[c] + rest[0]] + rest[1..]) == [c] + JoinSpace(rest)
  {
    var pieces := [[c] + rest[0]] + rest[1..];
    assert pieces[0] == [c] + rest[0] && pieces[1..] == rest[1..] && |pieces| == |rest|;
    if |rest| > 1 {
      var tail := JoinSpace(rest[1..]);
      calc {
        JoinSpace(pieces);
        pieces[0] + " " + JoinSpace(pieces[1..]);
        ([c] + rest[0]) + " " + tail;
        { assert ([c] + rest[0]) + " " + tail == [c] + (rest[0] + " " + tail); }
        [c] + (rest[0] + " " + tail);
        [c] + JoinSpace(rest);
      }
    }
  }

  /** `to_words`: one unit per grapheme cluster for a wide passage, otherwise the pieces of
      `split(' ')`. Either way the units put back together give the passage. */
  function ToWords(u: Unicode, passage: string): (words: seq<string>)
    requires Lawful(u) && passage != []
    ensures |words| >= 1
    ensures IsWideCharacter(u, passage) ==>
              Concat(words) == passage && forall i :: 0 <= i < |words| ==> words[i] != []
    ensures !IsWideCharacter(u, passage) ==>
              JoinSpace(words) == passage &&
              |words| == Occurrences(passage, ' ') + 1 &&
              forall i :: 0 <= i < |words| ==> ' ' !in words[i]
  {
    if IsWideCharacter(u, passage) then u.graphemes(passage) else SplitOnSpace(passage)
  }

  /** The characters `char::is_whitespace` accepts (the Unicode White_Space property). */
  predicate IsWhitespace(c: char)
  {
    ('\t' <= c <= '\r') || c == ' ' || c == '\U{0085}' || c == '\U{00A0}' || c == '\U{1680}' ||
    ('\U{2000}' <= c <= '\U{200A}') || c == '\U{2028}' || c == '\U{2029}' ||
    c == '\U{202F}' || c == '\U{205F}' || c == '\U{3000}'
  }

  predicate NoWhitespace(w: string)
  {
    forall j :: 0 <= j < |w| ==> !IsWhitespace(w[j])
  }

  /** Whitespace-collapsing split (`split_whitespace`): the maximal runs of
      non-whitespace characters, in order. */
  function SplitWhitespace(s: string): (words: seq<string>)
    ensures forall i :: 0 <= i < |words| ==> words[i] != [] && NoWhitespace(words[i])
    ensures s != [] && !IsWhitespace(s[0]) ==> words != [] && words[0][0] == s[0]
    decreases |s|
  {
    if s == [] then []
    else
      var rest := SplitWhitespace(s[1..]);
      if IsWhitespace(s[0]) then rest
      else if |s| > 1 && !IsWhitespace(s[1]) then
        var words := [[s[0]] + rest[0]] + rest[1..];
        assert forall i :: 1 <= i < |words| ==> words[i] == rest[i];
        words
      else [[s[0]]] + rest
  }

  /** Independent reading of the whitespace-collapsing split: `s` with leading and
      trailing whitespace dropped and every inner run of whitespace replaced by one
      space. */
  function Squeeze(s: string): string
  {
    SqueezeFrom(s, false, false)
  }

  /** Left-to-right scan; `seen`: a word has been emitted, `gap`: whitespace has followed
      the last emitted word, so a space is owed before the next one. */
  function SqueezeFrom(s: string, seen: bool, gap: bool): string
    decreases |s|
  {
    if s == [] then []
    else if IsWhitespace(s[0]) then SqueezeFrom(s[1..], seen, seen)
    else (if gap then " " else "") + [s[0]] + SqueezeFrom(s[1..], true, false)
  }

  /** A character glued to the front of the first word shows up at the front of the
      join. */
  lemma JoinSpaceGlue(c: char, words: seq<string>)
    requires words != []
    ensures JoinSpace([[c] + words[0]] + words[1..]) == [c] + JoinSpace(words)
  {
    var glued := [[c] + words[0]] + words[1..];
    assert glued[1..] == words[1..];
  }

  /** The scan, from each of its reachable states, against the join of the split. */
  lemma {:induction false} SqueezeFromSplit(s: string)
    ensures SqueezeFrom(s, false, false) == JoinSpace(SplitWhitespace(s))
    ensures SqueezeFrom(s, true, true) ==
              if SplitWhitespace(s) == [] then [] else " " + JoinSpace(SplitWhitespace(s))
    ensures SqueezeFrom(s, true, false) ==
              if s != [] && IsWhitespace(s[0]) then SqueezeFrom(s, true, true)
              else JoinSpace(SplitWhitespace(s))
    decreases |s|
  {
    if s != [] {
      SqueezeFromSplit(s[1..]);
      var rest := SplitWhitespace(s[1..]);
      if !IsWhitespace(s[0]) {
        if |s| > 1 && !IsWhitespace(s[1]) {
          JoinSpaceGlue(s[0], rest);
        }
      }
    }
  }

  /** The words of the whitespace-collapsing split, joined by single spaces, are the
      input with its whitespace collapsed and trimmed. */
  lemma SplitWhitespaceSqueeze(s: string)
    ensures JoinSpace(SplitWhitespace(s)) == Squeeze(s)
  {
    SqueezeFromSplit(s);
  }

  /** A word followed by nothing or by whitespace is split off as one unit. */
  lemma {:induction false} SplitWordThen(w: string, t: string)
    requires w != [] && NoWhitespace(w)
    requires t == [] || IsWhitespace(t[0])
    ensures SplitWhitespace(w + t) == [w] + SplitWhitespace(t)
    decreases |w|
  {
    var s := w + t;
    assert s[0] == w[0] && s[1..] == w[1..] + t;
    if |w| == 1 {
      assert s[1..] == t && [w[0]] == w;
      assert |s| > 1 ==> IsWhitespace(s[1]);
    } else {
      SplitWordThen(w[1..], t);
      assert s[1] == w[1];
      assert [w[0]] + w[1..] == w;
      var rest := SplitWhitespace(s[1..]);
      assert rest == [w[1..]] + SplitWhitespace(t);
      assert SplitWhitespace(s) == [[s[0]] + rest[0]] + rest[1..];
    }
  }

  /** Joining whitespace-free, non-empty words with single spaces and splitting the result
      again gives the same words, whatever whitespace-led text follows. */
  lemma {:induction false} SplitWhitespaceJoinThen(words: seq<string>, t: string)
    requires forall i :: 0 <= i < |words| ==> words[i] != [] && NoWhitespace(words[i])
    requires t == [] || IsWhitespace(t[0])
    ensures SplitWhitespace(JoinSpace(words) + t) == words + SplitWhitespace(t)
  {
    if words == [] {
      assert JoinSpace(words) + t == t;
    } else if |words| == 1 {
      SplitWordThen(words[0], t);
    } else {
      SplitWhitespaceJoinThen(words[1..], t);
      SplitJoinStep(words, t);
    }
  }

  /** One step of the induction above: the first word is split off, and the separating
      space after it produces no unit. */
  lemma SplitJoinStep(words: seq<string>, t: string)
    requires |words| > 1 && words[0] != [] && NoWhitespace(words[0])
    requires SplitWhitespace(JoinSpace(words[1..]) + t) == words[1..] + SplitWhitespace(t)
    ensures SplitWhitespace(JoinSpace(words) + t) == words + SplitWhitespace(t)
  {
    JoinSpaceThen(words, t);
    SplitWordSpace(words[0], JoinSpace(words[1..]) + t);
    ConsAppend(words, SplitWhitespace(t));
  }

  lemma TakeDrop<T>(s: seq<T>, k: nat)
    requires k <= |s|
    ensures s[..k] + s[k..] == s
  {
  }

  lemma DropCons<T>(s: seq<T>, k: nat)
    requires k < |s|
    ensures s[k..] != [] && s[k..][0] == s[k] && s[k..][1..] == s[k + 1..]
  {
  }

  lemma ConsAppend<T>(s: seq<T>, x: seq<T>)
    requires s != []
    ensures [s[0]] + (s[1..] + x) == s + x
  {
    assert s == [s[0]] + s[1..];
  }

  /** A word followed by a space is split off, and the space produces no unit. */
  lemma SplitWordSpace(w: string, r: string)
    requires w != [] && NoWhitespace(w)
    ensures SplitWhitespace(w + (" " + r)) == [w] + SplitWhitespace(r)
  {
    var t' := " " + r;
    assert t'[0] == ' ';
    SplitWordThen(w, t');
    SplitLeadingSpace(r);
  }

  /** Unfolding `JoinSpace` at its first separator, with text appended. */
  lemma JoinSpaceThen(words: seq<string>, t: string)
    requires |words| > 1
    ensures JoinSpace(words) + t == words[0] + (" " + (JoinSpace(words[1..]) + t))
  {
    assert JoinSpace(words) == words[0] + " " + JoinSpace(words[1..]);
    AppendAssoc(words[0], " ", JoinSpace(words[1..]), t);
  }

  lemma AppendAssoc(a: string, b: string, c: string, d: string)
    ensures a + b + c + d == a + (b + (c + d))
  {
  }

  /** Leading whitespace produces no unit. */
  lemma SplitLeadingSpace(s: string)
    ensures SplitWhitespace(" " + s) == SplitWhitespace(s)
  {
    assert (" " + s)[1..] == s;
  }

  lemma SplitWhitespaceJoin(words: seq<string>)
    requires forall i :: 0 <= i < |words| ==> words[i] != [] && NoWhitespace(words[i])
    ensures SplitWhitespace(JoinSpace(words)) == words
  {
    SplitWhitespaceJoinThen(words, []);
    assert JoinSpace(words) + [] == JoinSpace(words);
  }

  /** The round-trip law of the segmenter in narrow mode: re-splitting the re-joined units
      of a passage gives the same units. */
  lemma SplitWhitespaceRoundTrip(passage: string)
    ensures SplitWhitespace(JoinSpace(SplitWhitespace(passage))) == SplitWhitespace(passage)
  {
    SplitWhitespaceJoin(SplitWhitespace(passage));
  }

  /** The whitespace-collapsing `to_words` that `get_all_input_minus_last_word` relies on:
      nothing for an empty input, grapheme clusters for a wide input, otherwise the
      whitespace-separated words. */
  function ToWordsCollapsing(u: Unicode, s: string): (words: seq<string>)
    requires Lawful(u)
    ensures s == [] ==> words == []
    ensures s != [] && IsWideCharacter(u, s) ==> Concat(words) == s
    ensures s != [] && !IsWideCharacter(u, s) ==>
              (forall i :: 0 <= i < |words| ==> words[i] != [] && NoWhitespace(words[i])) &&
              JoinSpace(words) == Squeeze(s)
  {
    if s == [] then []
    else if IsWideCharacter(u, s) then u.graphemes(s)
    else SplitWhitespaceSqueeze(s); SplitWhitespace(s)
  }

  /** Concatenation distributes over sequence append. */
  lemma {:induction false} ConcatAppend(a: seq<string>, b: seq<string>)
    ensures Concat(a + b) == Concat(a) + Concat(b)
  {
    if a != [] {
      ConcatAppend(a[1..], b);
      assert (a + b)[1..] == a[1..] + b;
    } else {
      assert a + b == b;
    }
  }

  /** `join_to_passage`: wide units are concatenated, narrow ones joined by single spaces. */
  function JoinToPassage(wide: bool, words: seq<string>): string
  {
    if wide then Concat(words) else JoinSpace(words)
  }

  /** A space-free prefix is glued onto the first piece of what follows it. */
  lemma {:induction false} SplitOnSpaceGlue(w: string, t: string)
    requires ' ' !in w
    ensures var rest := SplitOnSpace(t);
            SplitOnSpace(w + t) == [w + rest[0]] + rest[1..]
    decreases |w|
  {
    var r := SplitOnSpace(t);
    if w != [] {
      var s := w + t;
      assert s[0] == w[0] && s[0] != ' ' && s[1..] == w[1..] + t;
      SplitOnSpaceGlue(w[1..], t);
      var rest := SplitOnSpace(s[1..]);
      assert rest == [w[1..] + r[0]] + r[1..];
      assert rest[1..] == r[1..];
      assert [s[0]] + rest[0] == w + r[0];
    } else {
      assert w + t == t && w + r[0] == r[0];
      assert [r[0]] + r[1..] == r;
    }
  }

  /** A space-free word followed by a space is split off as one piece. */
  lemma SplitOnSpaceWord(w: string, t: string)
    requires ' ' !in w
    ensures SplitOnSpace(w + " " + t) == [w] + SplitOnSpace(t)
  {
    var t' := " " + t;
    SplitOnSpaceLeadingSpace(t);
    SplitOnSpaceGlue(w, t');
    var r := SplitOnSpace(t');
    assert r[0] == [] && r[1..] == SplitOnSpace(t);
    calc {
      SplitOnSpace(w + " " + t);
      { assert w + " " + t == w + t'; }
      SplitOnSpace(w + t');
      [w + r[0]] + r[1..];
      { assert w + r[0] == w; }
      [w] + SplitOnSpace(t);
    }
  }

  /** A leading space separates an empty first piece. */
  lemma SplitOnSpaceLeadingSpace(t: string)
    ensures SplitOnSpace(" " + t) == [[]] + SplitOnSpace(t)
  {
    assert (" " + t)[0] == ' ' && (" " + t)[1..] == t;
  }

  /** The other half of the round trip of `split(' ')`: pieces without spaces, joined by
      single spaces, are split back into the same pieces. */
  lemma {:induction false} SplitOnSpaceJoin(pieces: seq<string>)
    requires |pieces| >= 1
    requires forall i :: 0 <= i < |pieces| ==> ' ' !in pieces[i]
    ensures SplitOnSpace(JoinSpace(pieces)) == pieces
  {
    if |pieces| == 1 {
      SplitOnSpaceGlue(pieces[0], []);
      assert pieces[0] + [] == pieces[0];
    } else {
      SplitOnSpaceJoin(pieces[1..]);
      SplitOnSpaceWord(pieces[0], JoinSpace(pieces[1..]));
      assert pieces == [pieces[0]] + pieces[1..];
    }
  }

  lemma SplitOnSpaceExample()
    ensures SplitOnSpace("the quick brown fox") == ["the", "quick", "brown", "fox"]
  {
    var pieces := ["the", "quick", "brown", "fox"];
    assert JoinSpace(pieces) == "the quick brown fox";
    SplitOnSpaceJoin(pieces);
  }

  lemma ToWordsLatinExample(u: Unicode)
    requires Lawful(u)
    requires !IsWideCharacter(u, "the quick brown fox")
    ensures ToWords(u, "the quick brown fox") == ["the", "quick", "brown", "fox"]
  {
    SplitOnSpaceExample();
  }

  lemma ToWordsWideExample(u: Unicode)
    requires Lawful(u)
    requires u.graphemes("你好你好你好") == ["你", "好", "你", "好", "你", "好"]
    requires u.width("你") == 2
    ensures ToWords(u, "你好你好你好") == ["你", "好", "你", "好", "你", "好"]
  {
  }
}
