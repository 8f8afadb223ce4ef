/**
 * Sentence segmentation of the 2.9.3 narration controller: the page text is split
 * by the regular expression `(?<=[.!?])\s+` (a whitespace run that directly follows
 * '.', '!' or '?'), every piece is stripped, empty pieces are dropped, and when
 * nothing is left the whole text is the single sentence.
 */
module Sentences {
  import opened Text

  predicate IsTerminator(c: char) {
    c == '.' || c == '!' || c == '?'
  }

  /** The pattern can start a match at index i: whitespace right after a terminator. */
  predicate BreakAt(s: string, i: int) {
    0 < i < |s| && IsTerminator(s[i - 1]) && IsSpace(s[i])
  }

  /** The leftmost match start at or after `from`. */
  function FindBreak(s: string, from: nat): (r: Option<nat>)
    requires from <= |s|
    ensures r.Some? ==> from <= r.value < |s| && BreakAt(s, r.value)
    ensures r.Some? ==> forall j | from <= j < r.value :: !BreakAt(s, j)
    ensures r.None? ==> forall j | from <= j < |s| :: !BreakAt(s, j)
    decreases |s| - from
  {
    if from == |s| then None
    else if BreakAt(s, from) then Some(from)
    else FindBreak(s, from + 1)
  }

  /** Where the greedy `\s+` that starts at i ends. */
  function SpaceRunEnd(s: string, i: nat): (e: nat)
    requires i <= |s|
    ensures i <= e <= |s| && (e == |s| || !IsSpace(s[e]))
    ensures forall j | i <= j < e :: IsSpace(s[j])
    decreases |s| - i
  {
    if i < |s| && IsSpace(s[i]) then SpaceRunEnd(s, i + 1) else i
  }

  /**
   * re.split with the pattern above. After a match the scan resumes at the end of
   * the whitespace run, whose last character is whitespace and so cannot satisfy
   * the look-behind; restarting on the suffix is therefore the same scan.
   */
  function RawPieces(s: string): (r: seq<string>)
    decreases |s|
  {
    match FindBreak(s, 0)
    case None => [s]
    case Some(b) => [s[..b]] + RawPieces(s[SpaceRunEnd(s, b)..])
  }

  /** A sentence as the filter keeps it: non-empty, no whitespace at either end. */
  predicate IsStripped(t: string) {
    t != [] && !IsSpace(t[0]) && !IsSpace(t[|t| - 1])
  }

  /** `[p.strip() for p in pieces if p.strip()]` */
  function Clean(pieces: seq<string>): seq<string> {
    if pieces == [] then []
    else
      var t := Strip(pieces[0]);
      (if t != [] then [t] else []) + Clean(pieces[1..])
  }

  /** Every kept piece is a stripped, non-empty sentence. */
  lemma {:induction false} CleanStripped(ps: seq<string>)
    ensures forall k | 0 <= k < |Clean(ps)| :: IsStripped(Clean(ps)[k])
  {
    if ps != [] {
      var t := Strip(ps[0]);
      var rest := Clean(ps[1..]);
      assert forall k | 0 <= k < |rest| :: IsStripped(rest[k]) by {
        CleanStripped(ps[1..]);
      }
      if t != [] {
        assert IsStripped(t) by {
          StripProperties(ps[0]);
        }
        var c := Clean(ps);
        assert c == [t] + rest;
        forall k | 0 <= k < |c| ensures IsStripped(c[k]) {
          if k > 0 { assert c[k] == rest[k - 1]; }
        }
      } else {
        assert Clean(ps) == rest;
      }
    }
  }

  /** The 2.9.3 segmentation, with its fallback to the whole text. */
  function SplitIntoSentences(text: string): seq<string> {
    var c := Clean(RawPieces(text));
    if c == [] then [text] else c
  }

  /** All pieces joined with nothing between them. */
  function Concat(ss: seq<string>): string {
    if ss == [] then [] else ss[0] + Concat(ss[1..])
  }

  predicate EndsWithTerminator(t: string) {
    t != [] && IsTerminator(t[|t| - 1])
  }

  // ---------------------------------------------------------------- content

  lemma ConcatSingle(t: string)
    ensures Concat([t]) == t
  {
    assert [t][1..] == [];
  }

  lemma {:induction false} ConcatAppend(a: seq<string>, b: seq<string>)
    ensures Concat(a + b) == Concat(a) + Concat(b)
  {
    if a == [] {
      assert a + b == b;
    } else {
      assert (a + b)[1..] == a[1..] + b;
      ConcatAppend(a[1..], b);
    }
  }

  /** Cleaning the pieces drops only whitespace. */
  lemma {:induction false} CleanKeepsContent(ps: seq<string>)
    ensures RemoveSpaces(Concat(Clean(ps))) == RemoveSpaces(Concat(ps))
  {
    if ps != [] {
      var t := Strip(ps[0]);
      var head: seq<string> := if t != [] then [t] else [];
      assert Clean(ps) == head + Clean(ps[1..]);
      assert Concat(ps) == ps[0] + Concat(ps[1..]);
      CleanKeepsContent(ps[1..]);
      StripProperties(ps[0]);
      ConcatAppend(head, Clean(ps[1..]));
      RemoveSpacesAppend(Concat(head), Concat(Clean(ps[1..])));
      RemoveSpacesAppend(ps[0], Concat(ps[1..]));
      if t != [] {
        ConcatSingle(t);
      }
    }
  }

  /** Splitting drops only the whitespace runs it splits at. */
  lemma {:induction false} RawPiecesKeepContent(s: string)
    ensures RemoveSpaces(Concat(RawPieces(s))) == RemoveSpaces(s)
    decreases |s|
  {
    match FindBreak(s, 0)
    case None =>
      ConcatSingle(s);
    case Some(b) =>
      var e := SpaceRunEnd(s, b);
      var rest := s[e..];
      RawPiecesKeepContent(rest);
      var ps := RawPieces(s);
      assert ps[0] == s[..b] && ps[1..] == RawPieces(rest);
      assert Concat(ps) == s[..b] + Concat(RawPieces(rest));
      RemoveSpacesAppend(s[..b], Concat(RawPieces(rest)));
      assert IsBlank(s[b..e]) by {
        forall i | 0 <= i < e - b ensures IsSpace(s[b..e][i]) {
          assert s[b..e][i] == s[b + i];
        }
      }
      DropGap(s, b, e);
  }

  /** Deleting the whitespace from a text with a blank stretch in it deletes that stretch too. */
  lemma DropGap(s: string, b: nat, e: nat)
    requires b <= e <= |s| && IsBlank(s[b..e])
    ensures RemoveSpaces(s) == RemoveSpaces(s[..b]) + RemoveSpaces(s[e..])
  {
    assert s == s[..b] + s[b..e] + s[e..] by {
      assert s[..e] == s[..b] + s[b..e];
      assert s == s[..e] + s[e..];
    }
    DropBlank(s[..b], s[b..e], s[e..]);
  }

  lemma DropBlank(pre: string, gap: string, rest: string)
    requires IsBlank(gap)
    ensures RemoveSpaces(pre + gap + rest) == RemoveSpaces(pre) + RemoveSpaces(rest)
  {
    RemoveSpacesEmptyIffBlank(gap);
    RemoveSpacesAppend(pre + gap, rest);
    RemoveSpacesAppend(pre, gap);
    assert RemoveSpaces(pre) + [] == RemoveSpaces(pre);
  }

  /**
   * No content is lost or reordered: deleting the whitespace from the joined
   * sentences gives the input with its whitespace deleted.
   */
  lemma SentencesKeepContent(text: string)
    ensures RemoveSpaces(Concat(SplitIntoSentences(text))) == RemoveSpaces(text)
  {
    var ps := RawPieces(text);
    RawPiecesKeepContent(text);
    CleanKeepsContent(ps);
    if Clean(ps) == [] {
      ConcatSingle(text);
    }
  }

  /**
   * The result is never empty. The fallback `[text]` is taken exactly when the text
   * is blank; otherwise every sentence is stripped and non-empty.
   */
  lemma SentencesShape(text: string)
    ensures SplitIntoSentences(text) != []
    ensures IsBlank(text) <==> Clean(RawPieces(text)) == []
    ensures IsBlank(text) ==> SplitIntoSentences(text) == [text]
    ensures !IsBlank(text) ==> forall k | 0 <= k < |SplitIntoSentences(text)| :: IsStripped(SplitIntoSentences(text)[k])
  {
    var c := Clean(RawPieces(text));
    RawPiecesKeepContent(text);
    CleanKeepsContent(RawPieces(text));
    CleanStripped(RawPieces(text));
    RemoveSpacesEmptyIffBlank(text);
    if c != [] {
      assert Concat(c) == c[0] + Concat(c[1..]);
      RemoveSpacesAppend(c[0], Concat(c[1..]));
      assert c[0][0] in RemoveSpaces(c[0]) by {
        assert RemoveSpaces(c[0]) == [c[0][0]] + RemoveSpaces(c[0][1..]);
      }
    }
  }

  // ---------------------------------------------------------------- terminators

  /** Every raw piece but the last was cut just after a terminator. */
  lemma {:induction false} RawPiecesEndWithTerminators(s: string)
    ensures forall k | 0 <= k < |RawPieces(s)| - 1 :: EndsWithTerminator(RawPieces(s)[k])
    decreases |s|
  {
    match FindBreak(s, 0)
    case None =>
    case Some(b) =>
      var rest := s[SpaceRunEnd(s, b)..];
      RawPiecesEndWithTerminators(rest);
      var ps := RawPieces(s);
      assert ps == [s[..b]] + RawPieces(rest);
      assert EndsWithTerminator(ps[0]) by { assert s[..b][b - 1] == s[b - 1]; }
      forall k | 1 <= k < |ps| - 1 ensures EndsWithTerminator(ps[k]) {
        assert ps[k] == RawPieces(rest)[k - 1];
      }
  }

  /** A terminated sentence in front keeps "all but the last are terminated". */
  lemma PrependTerminated(t: string, ss: seq<string>)
    requires EndsWithTerminator(t)
    requires forall k | 0 <= k < |ss| - 1 :: EndsWithTerminator(ss[k])
    ensures forall k | 0 <= k < |[t] + ss| - 1 :: EndsWithTerminator(([t] + ss)[k])
  {
    forall k | 0 <= k < |[t] + ss| - 1 ensures EndsWithTerminator(([t] + ss)[k]) {
      if k > 0 {
        assert ([t] + ss)[k] == ss[k - 1];
      }
    }
  }

  lemma {:induction false} CleanEndsWithTerminators(ps: seq<string>)
    requires forall k | 0 <= k < |ps| - 1 :: EndsWithTerminator(ps[k])
    ensures forall k | 0 <= k < |Clean(ps)| - 1 :: EndsWithTerminator(Clean(ps)[k])
  {
    if |ps| > 1 {
      var p, tail := ps[0], ps[1..];
      var rest := Clean(tail);
      assert forall k | 0 <= k < |rest| - 1 :: EndsWithTerminator(rest[k]) by {
        assert forall k | 0 <= k < |tail| - 1 :: tail[k] == ps[k + 1];
        CleanEndsWithTerminators(tail);
      }
      assert Strip(p) != [] && EndsWithTerminator(Strip(p)) by {
        assert EndsWithTerminator(ps[0]);
        StripKeepsLast(p);
      }
      assert Clean(ps) == [Strip(p)] + rest;
      PrependTerminated(Strip(p), rest);
    } else if ps != [] {
      assert ps[1..] == [];
      assert |Clean(ps)| <= 1;
    }
  }

  /** Every sentence except possibly the last ends with '.', '!' or '?'. */
  lemma SentencesEndWithTerminators(text: string)
    ensures var r := SplitIntoSentences(text);
      forall k | 0 <= k < |r| - 1 :: EndsWithTerminator(r[k])
  {
    RawPiecesEndWithTerminators(text);
    CleanEndsWithTerminators(RawPieces(text));
  }

  // ---------------------------------------------------------------- positions

  /** Characters taken by the sentences when each is followed by one separator. */
  function Width(ss: seq<string>): nat {
    if ss == [] then 0 else |ss[0]| + 1 + Width(ss[1..])
  }

  lemma {:induction false} JoinLength(ss: seq<string>)
    ensures ss != [] ==> |Join(ss, ' ')| + 1 == Width(ss)
  {
    if |ss| > 1 {
      JoinLength(ss[1..]);
    }
  }

  lemma {:induction false} WidthPrefix(ss: seq<string>, k: nat)
    requires k <= |ss|
    ensures Width(ss[..k]) <= Width(ss)
  {
    if k > 0 {
      assert ss[..k][1..] == ss[1..][..k - 1];
      WidthPrefix(ss[1..], k - 1);
    }
  }

  /** A cleaned piece is never wider than the piece. */
  lemma CleanOneWidth(p: string)
    ensures Width(Clean([p])) <= |p| + 1
  {
    assert Clean([p]) == (if Strip(p) != [] then [Strip(p)] else []) + Clean([]);
  }

  /** Cleaning a non-empty list handles its first piece, then the rest. */
  lemma CleanCons(ps: seq<string>)
    requires ps != []
    ensures Clean(ps) == Clean([ps[0]]) + Clean(ps[1..])
  {
    var t := Strip(ps[0]);
    var head := if t != [] then [t] else [];
    assert Clean([ps[0]]) == head by {
      assert [ps[0]][1..] == [];
      assert head + [] == head;
    }
    assert Clean(ps) == head + Clean(ps[1..]);
  }

  lemma {:induction false} WidthAppend(a: seq<string>, b: seq<string>)
    ensures Width(a + b) == Width(a) + Width(b)
  {
    if a == [] {
      assert a + b == b;
    } else {
      assert (a + b)[1..] == a[1..] + b;
      WidthAppend(a[1..], b);
    }
  }

  lemma {:induction false} CleanRawWidth(s: string)
    ensures Width(Clean(RawPieces(s))) <= |s| + 1
    decreases |s|
  {
    match FindBreak(s, 0)
    case None =>
      CleanOneWidth(s);
    case Some(b) =>
      var e := SpaceRunEnd(s, b);
      var rest := s[e..];
      CleanRawWidth(rest);
      var ps := RawPieces(s);
      assert ps[0] == s[..b] && ps[1..] == RawPieces(rest);
      CleanCons(ps);
      WidthAppend(Clean([ps[0]]), Clean(ps[1..]));
      CleanOneWidth(s[..b]);
  }

  /**
   * The 2.9.3 reader records `len(' '.join(sentences[:i+1]))` as its position in the
   * page after sentence i: that position never runs past the end of the text.
   */
  lemma SentencePositionBound(text: string, k: nat)
    requires k <= |SplitIntoSentences(text)|
    ensures |Join(SplitIntoSentences(text)[..k], ' ')| <= |text|
  {
    var r := SplitIntoSentences(text);
    if k > 0 {
      JoinLength(r[..k]);
      WidthPrefix(r, k);
      if Clean(RawPieces(text)) == [] {
        assert r[..k] == [text];
      } else {
        CleanRawWidth(text);
      }
    }
  }
}
