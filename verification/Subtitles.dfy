/** scripts/sous_titres_lune.py: cutting each line of narration into cards, and timing the cards. */
module Subtitles {
  import opened Results
  import opened Texts

  const MAX_CHARS := 62
  const LEAD: real := 0.10

  // ---- Phrases ----

  predicate IsMark(c: char) {
    c == '.' || c == '!' || c == '?'
  }

  /** The next position from i on where white space follows a mark, or the end. */
  function NextCut(s: string, i: nat): (c: nat)
    requires i <= |s|
    ensures i <= c <= |s| && (c < |s| ==> 0 < c && IsMark(s[c - 1]) && IsSpace(s[c]))
    ensures forall k :: i <= k < c && 0 < k ==> !(IsMark(s[k - 1]) && IsSpace(s[k]))
    decreases |s| - i
  {
    if i == |s| || (i > 0 && IsMark(s[i - 1]) && IsSpace(s[i])) then i else NextCut(s, i + 1)
  }

  /** Splitting at the runs of white space that follow a mark. */
  function Pieces(s: string): (r: seq<string>)
    decreases |s|
  {
    var c := NextCut(s, 0);
    if c == |s| then [s] else [s[..c]] + Pieces(LStrip(s[c..]))
  }

  predicate IsPhrase(p: string) {
    p != "" && IsStripped(p)
  }

  predicate ArePhrases(ps: seq<string>) {
    forall p {:trigger IsPhrase(p)} :: p in ps ==> IsPhrase(p)
  }

  function Kept(pieces: seq<string>): (r: seq<string>)
    ensures ArePhrases(r)
  {
    if pieces == [] then [] else
      StripIsStripped(pieces[0]);
      var p, rest := Strip(pieces[0]), Kept(pieces[1..]);
      if p == "" then rest else assert IsPhrase(p); [p] + rest
  }

  function Phrases(text: string): (r: seq<string>)
    ensures ArePhrases(r)
  {
    Kept(Pieces(text))
  }

  // ---- What the phrases say of the text ----

  /** The phrases with the gaps around and between them. */
  function Woven(gaps: seq<string>, ps: seq<string>): (r: string)
    requires |gaps| == |ps| + 1
  {
    if ps == [] then gaps[0] else gaps[0] + ps[0] + Woven(gaps[1..], ps[1..])
  }

  /** White space only, and some of it between two phrases. */
  predicate AreGaps(gaps: seq<string>) {
    && (forall k :: 0 <= k < |gaps| ==> IsBlank(gaps[k]))
    && (forall k :: 0 < k < |gaps| - 1 ==> gaps[k] != "")
  }

  /** Nothing in the phrase ends a sentence before its end. */
  predicate IsWhole(p: string) {
    forall k :: 0 < k < |p| ==> !(p[k - 1] in {'.', '!', '?'} && IsSpace(p[k]))
  }

  predicate EndsWithMark(p: string) {
    p != "" && p[|p| - 1] in {'.', '!', '?'}
  }

  /** Every phrase is whole, and every phrase but the last ends with a mark. */
  predicate AreSentences(ps: seq<string>) {
    && (forall p {:trigger IsWhole(p)} :: p in ps ==> IsWhole(p))
    && (forall k {:trigger EndsWithMark(ps[k])} :: 0 <= k < |ps| - 1 ==> EndsWithMark(ps[k]))
  }

  /** The part of a text without a cut is one phrase at most. */
  lemma LastPhrase(s: string) returns (gaps: seq<string>)
    requires NextCut(s, 0) == |s|
    ensures |gaps| == |Phrases(s)| + 1 && AreGaps(gaps) && AreSentences(Phrases(s)) && Woven(gaps, Phrases(s)) == s
  {
    var p := Strip(s);
    var a, b := StripSplits(s);
    var pieces: seq<string> := [s];
    assert Pieces(s) == pieces && pieces[1..] == [];
    var none: seq<string> := [];
    assert Kept(pieces) == (if p == "" then Kept(none) else [p] + Kept(none)) && Kept(none) == [];
    if p == "" {
      gaps := [s];
      assert s == a + b;
    } else {
      gaps := [a, b];
      var ps: seq<string> := [p];
      assert gaps[1..] == [b] && ps[1..] == [] && Phrases(s) == ps;
      forall k | 0 < k < |p| ensures !(p[k - 1] in {'.', '!', '?'} && IsSpace(p[k])) {
        assert p[k - 1] == s[|a| + k - 1] && p[k] == s[|a| + k];
      }
      assert IsWhole(p);
    }
  }

  lemma NoSpaceAtEnd(t: string, x: string, b: string)
    requires t == x + b && t != "" && !IsSpace(t[|t| - 1]) && IsBlank(b)
    ensures b == ""
  {
    var last := t[|t| - 1];
    assert b == "" || last in b;
  }

  lemma NoSpaceOnly(t: string, a: string)
    requires t != "" && !IsSpace(t[|t| - 1]) && IsBlank(a)
    ensures t != a
  {
    var last := t[|t| - 1];
    assert last in t;
  }

  /** The part before a cut is one phrase, without white space after it. */
  lemma PhraseBeforeCut(s: string, c: nat) returns (a: string)
    requires c == NextCut(s, 0) && c < |s|
    ensures s[..c] == a + Strip(s[..c]) && IsBlank(a)
    ensures IsWhole(Strip(s[..c])) && EndsWithMark(Strip(s[..c]))
  {
    var p := Strip(s[..c]);
    var b;
    a, b := StripSplits(s[..c]);
    NoSpaceAtEnd(s[..c], a + p, b);
    assert s[..c] == a + p;
    NoSpaceOnly(s[..c], a);
    assert p != "";
    assert p[|p| - 1] == s[c - 1];
    forall k | 0 < k < |p| ensures !(p[k - 1] in {'.', '!', '?'} && IsSpace(p[k])) {
      assert p[k - 1] == s[|a| + k - 1] && p[k] == s[|a| + k];
    }
  }

  lemma WovenHead(w: string, gaps: seq<string>, ps: seq<string>, more: seq<string>)
    requires |gaps| == |ps| + 1 && more == [w + gaps[0]] + gaps[1..]
    ensures Woven(more, ps) == w + Woven(gaps, ps)
  {
    if ps != [] {
      var g, tail := gaps[0], Woven(gaps[1..], ps[1..]);
      assert more[1..] == gaps[1..];
      assert (w + g) + ps[0] + tail == w + (g + ps[0] + tail);
    }
  }

  lemma WovenOnto(a: string, p: string, gaps: seq<string>, ps: seq<string>)
    requires |gaps| == |ps| + 1
    ensures Woven([a] + gaps, [p] + ps) == a + p + Woven(gaps, ps)
  {
    assert ([a] + gaps)[1..] == gaps && ([p] + ps)[1..] == ps;
  }

  lemma GapsOnto(a: string, w: string, gaps: seq<string>, inner: seq<string>)
    requires gaps != [] && AreGaps(gaps) && IsBlank(a) && IsBlank(w) && w != "" && inner == [w + gaps[0]] + gaps[1..]
    ensures AreGaps([a] + inner)
  {
    assert forall k :: 0 < k < |gaps| ==> inner[k] == gaps[k];
    assert IsBlank(gaps[0]) && IsBlank(inner[0]);
  }

  lemma SentencesOnto(p: string, ps: seq<string>)
    requires IsWhole(p) && EndsWithMark(p) && AreSentences(ps)
    ensures AreSentences([p] + ps)
  {
    forall k | 0 <= k < |ps| ensures EndsWithMark(([p] + ps)[k]) {
      if k > 0 {
        assert EndsWithMark(ps[k - 1]);
      }
    }
  }

  /** No character of the text but white space is lost: the text is its phrases with gaps of white space around them. A
      gap between two phrases is not empty and follows a mark, and no phrase could be cut further. */
  lemma {:induction false} PhrasesTellText(text: string) returns (gaps: seq<string>)
    ensures |gaps| == |Phrases(text)| + 1 && AreGaps(gaps) && AreSentences(Phrases(text))
    ensures Woven(gaps, Phrases(text)) == text
    decreases |text|
  {
    var c := NextCut(text, 0);
    if c == |text| {
      gaps := LastPhrase(text);
    } else {
      var left, right := text[..c], text[c..];
      var p, rest := Strip(left), LStrip(right);
      var a := PhraseBeforeCut(text, c);
      var w := LStripSplits(right);
      var more := PhrasesTellText(rest);
      assert Pieces(text) == [left] + Pieces(rest);
      assert ([left] + Pieces(rest))[1..] == Pieces(rest);
      assert Phrases(text) == [p] + Phrases(rest);
      var inner := [w + more[0]] + more[1..];
      WovenHead(w, more, Phrases(rest), inner);
      WovenOnto(a, p, inner, Phrases(rest));
      gaps := [a] + inner;
      assert text == left + right;
      GapsOnto(a, w, more, inner);
      SentencesOnto(p, Phrases(rest));
    }
  }

  // ---- Groupings ----

  /** Phrases i to e - 1 on one card. */
  function Join(ps: seq<string>, i: nat, e: nat): (r: string)
    requires i < e <= |ps|
  {
    if e == i + 1 then ps[i] else Join(ps, i, e - 1) + " " + ps[e - 1]
  }

  /** A phrase alone may be as long as it likes. */
  predicate Fits(ps: seq<string>, i: nat, e: nat)
    requires i < e <= |ps|
  {
    e == i + 1 || |Join(ps, i, e)| <= MAX_CHARS
  }

  function StartOf(ends: seq<nat>, k: nat): (r: nat)
    requires k <= |ends|
  {
    if k == 0 then 0 else ends[k - 1]
  }

  /** Group k is not empty and fits. */
  predicate IsGroup(ps: seq<string>, ends: seq<nat>, k: nat)
    requires k < |ends|
  {
    StartOf(ends, k) < ends[k] <= |ps| && Fits(ps, StartOf(ends, k), ends[k])
  }

  /** Consecutive groups of the first n phrases, given by where each ends. */
  predicate Groups(ps: seq<string>, ends: seq<nat>, n: nat) {
    && StartOf(ends, |ends|) == n
    && (forall k {:trigger IsGroup(ps, ends, k)} :: 0 <= k < |ends| ==> IsGroup(ps, ends, k))
  }

  function Card(ps: seq<string>, ends: seq<nat>, k: nat): (r: string)
    requires k < |ends| && IsGroup(ps, ends, k)
  {
    Join(ps, StartOf(ends, k), ends[k])
  }

  function Cards(ps: seq<string>, ends: seq<nat>): (r: seq<string>)
    requires Groups(ps, ends, StartOf(ends, |ends|))
  {
    seq(|ends|, k requires 0 <= k < |ends| && IsGroup(ps, ends, k) => Card(ps, ends, k))
  }

  /** Group k could not have taken one more phrase. */
  predicate IsFull(ps: seq<string>, ends: seq<nat>, k: nat)
    requires k < |ends| && IsGroup(ps, ends, k)
  {
    ends[k] < |ps| ==> |Join(ps, StartOf(ends, k), ends[k] + 1)| > MAX_CHARS
  }

  predicate Full(ps: seq<string>, ends: seq<nat>, n: nat)
    requires Groups(ps, ends, n)
  {
    forall k {:trigger IsFull(ps, ends, k)} :: 0 <= k < |ends| && IsGroup(ps, ends, k) ==> IsFull(ps, ends, k)
  }

  lemma {:induction false} JoinGrows(ps: seq<string>, j: nat, i: nat, e: nat, f: nat)
    requires j <= i < e <= f <= |ps|
    ensures |Join(ps, i, e)| <= |Join(ps, j, f)|
    decreases f - j
  {
    if e < f {
      JoinGrows(ps, j, i, e, f - 1);
    } else if j < i && i + 1 < e {
      JoinGrows(ps, j, i, e - 1, e - 1);
    }
  }

  /** Full groups are never behind: each ends at or after the same group of any other grouping. */
  lemma {:induction false} StaysAhead(ps: seq<string>, ends: seq<nat>, other: seq<nat>, k: nat)
    requires Groups(ps, ends, |ps|) && Full(ps, ends, |ps|) && Groups(ps, other, |ps|)
    requires k < |ends| && k < |other|
    ensures other[k] <= ends[k]
  {
    assert IsGroup(ps, ends, k) && IsFull(ps, ends, k) && IsGroup(ps, other, k);
    if k > 0 {
      StaysAhead(ps, ends, other, k - 1);
    }
    if ends[k] < other[k] {
      JoinGrows(ps, StartOf(other, k), StartOf(ends, k), ends[k] + 1, other[k]);
    }
  }

  lemma {:induction false} EndsIncrease(ps: seq<string>, ends: seq<nat>, n: nat, i: nat, j: nat)
    requires Groups(ps, ends, n) && i < j < |ends|
    ensures ends[i] < ends[j]
  {
    assert IsGroup(ps, ends, j);
    if i < j - 1 {
      EndsIncrease(ps, ends, n, i, j - 1);
    }
  }

  /** Greedy is optimal: no grouping within the limit has fewer cards. */
  lemma FullIsFewest(ps: seq<string>, ends: seq<nat>, other: seq<nat>)
    requires Groups(ps, ends, |ps|) && Full(ps, ends, |ps|) && Groups(ps, other, |ps|)
    ensures |ends| <= |other|
  {
    if |other| < |ends| {
      assert IsGroup(ps, ends, 0);
      if other != [] {
        StaysAhead(ps, ends, other, |other| - 1);
        EndsIncrease(ps, ends, |ps|, |other| - 1, |ends| - 1);
      }
    }
  }

  lemma {:induction false} JoinSplit(ps: seq<string>, i: nat, m: nat, e: nat)
    requires i < m < e <= |ps|
    ensures Join(ps, i, e) == Join(ps, i, m) + " " + Join(ps, m, e)
    decreases e
  {
    if m + 1 < e {
      JoinSplit(ps, i, m, e - 1);
    }
  }

  /** The cards say the text: read one after the other they give the phrases back. */
  lemma {:induction false} CardsSayTheText(ps: seq<string>, ends: seq<nat>, k: nat)
    requires Groups(ps, ends, |ps|) && 0 < k <= |ends|
    ensures 0 < ends[k - 1] <= |ps| && Join(Cards(ps, ends), 0, k) == Join(ps, 0, ends[k - 1])
  {
    assert IsGroup(ps, ends, k - 1);
    if k > 1 {
      CardsSayTheText(ps, ends, k - 1);
      JoinSplit(ps, 0, ends[k - 2], ends[k - 1]);
    }
  }

  // ---- The greedy loop ----

  lemma {:induction false} JoinIsPhrase(ps: seq<string>, i: nat, e: nat)
    requires i < e <= |ps| && ArePhrases(ps)
    ensures IsPhrase(Join(ps, i, e))
  {
    assert ps[i] in ps && IsPhrase(ps[i]);
    if i + 1 < e {
      JoinIsPhrase(ps, i, e - 1);
      assert ps[e - 1] in ps && IsPhrase(ps[e - 1]);
    }
  }

  lemma CloseGroup(ps: seq<string>, ends: seq<nat>, start: nat, i: nat)
    requires Groups(ps, ends, start) && Full(ps, ends, start) && start < i <= |ps| && Fits(ps, start, i)
    requires i < |ps| ==> |Join(ps, start, i + 1)| > MAX_CHARS
    ensures Groups(ps, ends + [i], i) && Full(ps, ends + [i], i)
    ensures Cards(ps, ends + [i]) == Cards(ps, ends) + [Join(ps, start, i)]
  {
    var longer := ends + [i];
    forall k | 0 <= k < |longer| ensures IsGroup(ps, longer, k) && IsFull(ps, longer, k) {
      if k < |ends| {
        assert IsGroup(ps, ends, k) && IsFull(ps, ends, k);
      }
    }
    forall k | 0 <= k < |longer| ensures Cards(ps, longer)[k] == (Cards(ps, ends) + [Join(ps, start, i)])[k] {
      assert IsGroup(ps, longer, k) && Cards(ps, longer)[k] == Card(ps, longer, k);
    }
  }

  /** Adding a phrase to what is on the card so far. */
  lemma CandidateIsJoin(ps: seq<string>, start: nat, i: nat)
    requires start <= i < |ps| && ArePhrases(ps)
    ensures var current := if start == i then "" else Join(ps, start, i);
            Strip(current + " " + ps[i]) == Join(ps, start, i + 1)
  {
    JoinIsPhrase(ps, start, i + 1);
    if start == i {
      assert "" + " " + ps[i] == " " + ps[i];
      StripAfterSpace(ps[i]);
    } else {
      StripOfStripped(Join(ps, start, i + 1));
    }
  }

  /** The cards are full groups of the phrases. */
  ghost predicate Packed(ps: seq<string>, ends: seq<nat>, n: nat, cards: seq<string>) {
    Groups(ps, ends, n) && Full(ps, ends, n) && cards == Cards(ps, ends)
  }

  ghost predicate IsPacked(ps: seq<string>, cards: seq<string>) {
    exists ends {:trigger Packed(ps, ends, |ps|, cards)} :: Packed(ps, ends, |ps|, cards)
  }

  /** Before phrase i: closed cards up to `start`, and the card in hand. */
  ghost predicate Packing(ps: seq<string>, ends: seq<nat>, start: nat, i: nat, cards: seq<string>, current: string)
    requires i <= |ps|
  {
    && Packed(ps, ends, start, cards)
    && if i == 0 then start == 0 && current == "" else start < i && current == Join(ps, start, i) && Fits(ps, start, i)
  }

  lemma PackNext(ps: seq<string>, ends: seq<nat>, start: nat, i: nat, cards: seq<string>, current: string)
    requires i < |ps| && Packing(ps, ends, start, i, cards, current) && start <= i
    ensures var candidate := Join(ps, start, i + 1);
            if i > 0 && |candidate| > MAX_CHARS then Packing(ps, ends + [i], i, i + 1, cards + [current], ps[i])
            else Packing(ps, ends, start, i + 1, cards, candidate)
  {
    if i > 0 && |Join(ps, start, i + 1)| > MAX_CHARS {
      CloseGroup(ps, ends, start, i);
    }
  }

  method Pack(ps: seq<string>) returns (cards: seq<string>)
    requires |ps| >= 2 && ArePhrases(ps)
    ensures IsPacked(ps, cards)
  {
    cards := [];
    ghost var ends: seq<nat> := [];
    var current := "";
    ghost var start := 0;
    for i := 0 to |ps|
      invariant start <= i && Packing(ps, ends, start, i, cards, current)
      invariant i > 0 ==> current != ""
    {
      PackNext(ps, ends, start, i, cards, current);
      CandidateIsJoin(ps, start, i);
      JoinIsPhrase(ps, start, i + 1);
      JoinIsPhrase(ps, i, i + 1);
      var candidate := Strip(current + " " + ps[i]);
      if current != "" && |candidate| > MAX_CHARS {
        cards := cards + [current];
        current := ps[i];
        ends, start := ends + [i], i;
      } else {
        current := candidate;
      }
    }
    CloseGroup(ps, ends, start, |ps|);
    if current != "" {
      cards := cards + [current];
    }
    assert Packed(ps, ends + [|ps|], |ps|, cards);
  }

  function Chars(cards: seq<string>): (r: nat) {
    if cards == [] then 0 else Chars(cards[..|cards| - 1]) + |cards[|cards| - 1]|
  }

  lemma {:induction false} CharsHas(cards: seq<string>, k: nat)
    requires k < |cards|
    ensures |cards[k]| <= Chars(cards)
  {
    if k < |cards| - 1 {
      CharsHas(cards[..|cards| - 1], k);
    }
  }

  /** The cards are a full grouping of the phrases, or the text itself when there is nothing to cut. */
  ghost predicate IsCut(text: string, cards: seq<string>) {
    var ps := Phrases(text);
    if |text| <= MAX_CHARS || |ps| < 2 then cards == [text] else IsPacked(ps, cards)
  }

  /** The cards of a text are as few as any grouping of its phrases within the limit allows. */
  lemma CutIsFewest(text: string, cards: seq<string>, other: seq<nat>)
    requires IsCut(text, cards) && |text| > MAX_CHARS && Groups(Phrases(text), other, |Phrases(text)|) && other != []
    ensures |cards| <= |other|
  {
    var ps := Phrases(text);
    if |ps| >= 2 {
      var ends :| Packed(ps, ends, |ps|, cards);
      FullIsFewest(ps, ends, other);
    }
  }

  method Cut(text: string) returns (cards: seq<string>)
    ensures IsCut(text, cards) && cards != []
    ensures |text| <= 62 ==> cards == [text]
    ensures forall card :: card in cards && |card| > 62 ==> card in Phrases(text) || cards == [text]
    ensures Chars(cards) == 0 <==> text == ""
  {
    if |text| <= MAX_CHARS {
      assert Chars([text]) == Chars([text][..0]) + |text|;
      return [text];
    }
    var ps := Phrases(text);
    if |ps| < 2 {
      assert Chars([text]) == Chars([text][..0]) + |text|;
      return [text];
    }
    cards := Pack(ps);
    ghost var ends :| Packed(ps, ends, |ps|, cards);
    assert IsGroup(ps, ends, 0) && cards[0] == Card(ps, ends, 0);
    JoinIsPhrase(ps, 0, ends[0]);
    CharsHas(cards, 0);
    LongCardsArePhrases(ps, ends, cards);
  }

  lemma LongCardsArePhrases(ps: seq<string>, ends: seq<nat>, cards: seq<string>)
    requires Packed(ps, ends, |ps|, cards)
    ensures forall card :: card in cards && |card| > 62 ==> card in ps
  {
    forall card | card in cards && |card| > 62 ensures card in ps {
      var k :| 0 <= k < |cards| && cards[k] == card;
      assert IsGroup(ps, ends, k) && card == Card(ps, ends, k);
    }
  }

  // ---- The timeline ----

  datatype Cue = Cue(start: real, end: real, text: string)

  /** The recording of one line: not there, without a readable duration, or so many seconds long. */
  datatype Audio = Missing | Unreadable | Lasts(seconds: real)

  datatype Stop = NoFile | NoDuration

  predicate Readable(a: Audio) {
    a.Lasts? && a.seconds != 0.0
  }

  predicate Forward(cues: seq<Cue>, k: nat)
    requires k < |cues|
  {
    0.0 <= cues[k].start <= cues[k].end
  }

  predicate Apart(cues: seq<Cue>, k: nat, l: nat)
    requires k < l < |cues|
  {
    cues[k].end <= cues[l].start
  }

  /** Every card ends no earlier than it starts, and no two cards are ever shown together. */
  predicate WellTimed(cues: seq<Cue>) {
    && (forall k {:trigger Forward(cues, k)} :: 0 <= k < |cues| ==> Forward(cues, k))
    && (forall k, l {:trigger Apart(cues, k, l)} :: 0 <= k < l < |cues| ==> Apart(cues, k, l))
  }

  function TextsOf(cues: seq<Cue>): (r: seq<string>) {
    seq(|cues|, k requires 0 <= k < |cues| => cues[k].text)
  }

  function Sum(shares: seq<real>): (r: real) {
    if shares == [] then 0.0 else Sum(shares[..|shares| - 1]) + shares[|shares| - 1]
  }

  /** What the lengths add up to, or 1 when there is nothing to read. */
  function TotalOf(cards: seq<string>): (total: real)
    ensures total > 0.0
  {
    if Chars(cards) == 0 then 1.0 else Chars(cards) as real
  }

  predicate IsShare(cards: seq<string>, d: real, shares: seq<real>, total: real, k: nat)
    requires k < |cards| == |shares| && total > 0.0
  {
    shares[k] == Portion(d, |cards[k]|, total)
  }

  predicate Proportional(cards: seq<string>, d: real, shares: seq<real>, total: real)
    requires total > 0.0
  {
    && |shares| == |cards|
    && forall k {:trigger IsShare(cards, d, shares, total, k)} ::
         0 <= k < |cards| ==> IsShare(cards, d, shares, total, k)
  }

  /** d seconds for `total` characters make so much for `chars` of them. */
  function Portion(d: real, chars: nat, total: real): (r: real)
    requires total > 0.0
  {
    d * (chars as real) / total
  }

  lemma PortionsAddUp(d: real, a: nat, b: nat, total: real)
    requires total > 0.0
    ensures Portion(d, a + b, total) == Portion(d, a, total) + Portion(d, b, total)
  {
    var x, y := a as real, b as real;
    assert (a + b) as real == x + y;
    assert d * (x + y) == d * x + d * y;
  }

  lemma WholePortion(d: real, chars: nat, total: real)
    requires total == chars as real > 0.0 || (total > 0.0 && chars == 0)
    ensures Portion(d, chars, total) == if chars == 0 then 0.0 else d
  {
    if chars == 0 {
      assert d * 0.0 == 0.0;
    } else {
      assert d * total / total == d;
    }
  }

  lemma PortionIsNatural(d: real, a: nat, total: real)
    requires total > 0.0 && d >= 0.0
    ensures Portion(d, a, total) >= 0.0
  {
  }

  lemma {:induction false} SumIsPortion(cards: seq<string>, d: real, shares: seq<real>, k: nat, total: real)
    requires total > 0.0 && Proportional(cards, d, shares, total) && k <= |cards|
    ensures Sum(shares[..k]) == Portion(d, Chars(cards[..k]), total)
  {
    if k > 0 {
      SumIsPortion(cards, d, shares, k - 1, total);
      assert IsShare(cards, d, shares, total, k - 1);
      assert cards[..k][..k - 1] == cards[..k - 1] && shares[..k][..k - 1] == shares[..k - 1];
      PortionsAddUp(d, Chars(cards[..k - 1]), |cards[k - 1]|, total);
    }
  }

  /** All the cards together take the whole recording, unless there is nothing to read on them. */
  lemma SharesAreWhole(cards: seq<string>, d: real, shares: seq<real>)
    requires Proportional(cards, d, shares, TotalOf(cards))
    ensures Sum(shares) == if Chars(cards) == 0 then 0.0 else d
  {
    SumIsPortion(cards, d, shares, |cards|, TotalOf(cards));
    WholePortion(d, Chars(cards), TotalOf(cards));
    assert cards[..|cards|] == cards && shares[..|cards|] == shares;
  }

  lemma SharesAreNatural(cards: seq<string>, d: real, shares: seq<real>, total: real)
    requires total > 0.0 && Proportional(cards, d, shares, total) && 0.0 <= d
    ensures forall k :: 0 <= k < |shares| ==> 0.0 <= shares[k]
  {
    forall k | 0 <= k < |shares| ensures 0.0 <= shares[k] {
      assert IsShare(cards, d, shares, total, k);
      PortionIsNatural(d, |cards[k]|, total);
    }
  }

  /** Time in proportion to the characters. */
  method Shares(cards: seq<string>, d: real) returns (shares: seq<real>)
    ensures Proportional(cards, d, shares, TotalOf(cards))
  {
    var total := TotalOf(cards);
    shares := seq(|cards|, k requires 0 <= k < |cards| => Portion(d, |cards[k]|, total));
  }

  /** A card whose share of the recording begins at `at`: it ends with its share and appears a little earlier, but not
      before zero, nor before the card in front of it has gone. */
  function NextCue(made: seq<Cue>, at: real, share: real, text: string): (r: Cue) {
    var start := if at - LEAD < 0.0 then 0.0 else at - LEAD;
    Cue(if made != [] && start < made[|made| - 1].end then made[|made| - 1].end else start, at + share, text)
  }

  /** Card k of a line is cue first + k: it shows the card's text, for the share of the line's d seconds that its length
      has in the line's length, after the shares of the cards before it. */
  predicate CardTimed(cues: seq<Cue>, first: nat, cards: seq<string>, d: real, clock: real, k: nat)
    requires k < |cards| && first + |cards| <= |cues|
  {
    var total := TotalOf(cards);
    cues[first + k] ==
    NextCue(cues[..first + k], clock + Portion(d, Chars(cards[..k]), total), Portion(d, |cards[k]|, total), cards[k])
  }

  /** A cue wants to appear a tenth of a second before it is read, but not before zero nor before the cue in front of it
      has gone. */
  lemma CueAppears(made: seq<Cue>, at: real, share: real, text: string)
    ensures var cue, wanted := NextCue(made, at, share, text), if at < 0.10 then 0.0 else at - 0.10;
            && cue.text == text && cue.end == at + share
            && cue.start == if made != [] && wanted < made[|made| - 1].end then made[|made| - 1].end else wanted
  {
  }

  /** Card k is read after the portions of the cards before it, and ends with its own portion. */
  lemma CueTimes(cues: seq<Cue>, first: nat, cards: seq<string>, d: real, clock: real, k: nat)
    requires k < |cards| && first + |cards| <= |cues| && CardTimed(cues, first, cards, d, clock, k)
    ensures var at := clock + Portion(d, Chars(cards[..k]), TotalOf(cards));
            var wanted := if at < 0.10 then 0.0 else at - 0.10;
            var cue := cues[first + k];
            && cue.text == cards[k] && cue.end == at + Portion(d, |cards[k]|, TotalOf(cards))
            && cue.start ==
                 if first + k > 0 && wanted < cues[first + k - 1].end then cues[first + k - 1].end else wanted
  {
    var at, share := clock + Portion(d, Chars(cards[..k]), TotalOf(cards)), Portion(d, |cards[k]|, TotalOf(cards));
    CueAppears(cues[..first + k], at, share, cards[k]);
  }

  predicate CardsTimed(cues: seq<Cue>, first: nat, cards: seq<string>, d: real, clock: real) {
    && first + |cards| <= |cues|
    && forall k {:trigger CardTimed(cues, first, cards, d, clock, k)} ::
         0 <= k < |cards| ==> CardTimed(cues, first, cards, d, clock, k)
  }

  predicate DoneBy(cues: seq<Cue>, at: real) {
    WellTimed(cues) && 0.0 <= at && (cues != [] ==> cues[|cues| - 1].end <= at)
  }

  lemma NextIsWellTimed(made: seq<Cue>, at: real, share: real, text: string)
    requires DoneBy(made, at) && 0.0 <= share
    ensures DoneBy(made + [NextCue(made, at, share, text)], at + share)
  {
    var n, cues := |made|, made + [NextCue(made, at, share, text)];
    if n > 0 {
      assert Forward(made, n - 1);
    }
    forall k | 0 <= k < |cues| ensures Forward(cues, k) {
      assert k < n ==> Forward(made, k);
    }
    forall k, l | 0 <= k < l < |cues| ensures Apart(cues, k, l) {
      if l < n {
        assert Apart(made, k, l);
      } else if k < n - 1 {
        assert Apart(made, k, n - 1);
      }
    }
  }

  lemma TextsNext(made: seq<Cue>, cue: Cue)
    ensures TextsOf(made + [cue]) == TextsOf(made) + [cue.text]
  {
  }

  lemma CardsStayTimed(cues: seq<Cue>, cues': seq<Cue>, first: nat, cards: seq<string>, d: real, clock: real)
    requires CardsTimed(cues, first, cards, d, clock) && |cues| <= |cues'| && cues == cues'[..|cues|]
    ensures CardsTimed(cues', first, cards, d, clock)
  {
    forall k | 0 <= k < |cards| ensures CardTimed(cues', first, cards, d, clock, k) {
      assert CardTimed(cues, first, cards, d, clock, k);
      assert cues'[..first + k] == cues[..first + k] && cues'[first + k] == cues[first + k];
    }
  }

  /** Card k as the loop makes it, from the shares before it. */
  predicate IsNext(cues: seq<Cue>, first: nat, clock: real, shares: seq<real>, cards: seq<string>, k: nat)
    requires k < |cards| == |shares| && first + k < |cues|
  {
    cues[first + k] == NextCue(cues[..first + k], clock + Sum(shares[..k]), shares[k], cards[k])
  }

  lemma NextStays(cues: seq<Cue>, cue: Cue, first: nat, clock: real, shares: seq<real>, cards: seq<string>, k: nat)
    requires k < |cards| == |shares| && first + k <= |cues|
    requires first + k < |cues| ==> IsNext(cues, first, clock, shares, cards, k)
    requires first + k == |cues| ==> cue == NextCue(cues, clock + Sum(shares[..k]), shares[k], cards[k])
    ensures IsNext(cues + [cue], first, clock, shares, cards, k)
  {
    assert (cues + [cue])[..first + k] == cues[..first + k];
    assert cues[..|cues|] == cues;
  }

  /** The shares add up to portions of the line. */
  lemma AllTimed(cues: seq<Cue>, first: nat, cards: seq<string>, d: real, clock: real, shares: seq<real>)
    requires Proportional(cards, d, shares, TotalOf(cards)) && first + |cards| <= |cues|
    requires forall j {:trigger IsNext(cues, first, clock, shares, cards, j)} ::
      0 <= j < |cards| ==> IsNext(cues, first, clock, shares, cards, j)
    ensures CardsTimed(cues, first, cards, d, clock)
  {
    forall k | 0 <= k < |cards| ensures CardTimed(cues, first, cards, d, clock, k) {
      assert IsNext(cues, first, clock, shares, cards, k) && IsShare(cards, d, shares, TotalOf(cards), k);
      SumIsPortion(cards, d, shares, k, TotalOf(cards));
    }
  }

  /** The cards of one line, from `clock` on, each in proportion to its length. */
  method AddCards(cards: seq<string>, d: real, clock: real, made: seq<Cue>) returns (cues: seq<Cue>)
    requires cards != []
    ensures |cues| == |made| + |cards| && TextsOf(cues) == TextsOf(made) + cards
    ensures made == cues[..|made|] && CardsTimed(cues, |made|, cards, d, clock)
    ensures cues[|cues| - 1].end == clock + if Chars(cards) == 0 then 0.0 else d
    ensures DoneBy(made, clock) && 0.0 <= d ==> DoneBy(cues, clock + d)
  {
    var shares := Shares(cards, d);
    SharesAreWhole(cards, d, shares);
    if 0.0 <= d {
      SharesAreNatural(cards, d, shares, TotalOf(cards));
    }
    var at := clock;
    cues := made;
    for k := 0 to |cards|
      invariant |cues| == |made| + k && made == cues[..|made|]
      invariant TextsOf(cues) == TextsOf(made) + cards[..k]
      invariant at == clock + Sum(shares[..k])
      invariant k > 0 ==> cues[|cues| - 1].end == at
      invariant forall j {:trigger IsNext(cues, |made|, clock, shares, cards, j)} ::
        0 <= j < k ==> IsNext(cues, |made|, clock, shares, cards, j)
      invariant DoneBy(made, clock) && 0.0 <= d ==> DoneBy(cues, at)
    {
      assert cards[..k + 1] == cards[..k] + [cards[k]];
      assert shares[..k + 1][..k] == shares[..k];
      var cue := NextCue(cues, at, shares[k], cards[k]);
      if DoneBy(cues, at) && 0.0 <= d {
        NextIsWellTimed(cues, at, shares[k], cards[k]);
      }
      TextsNext(cues, cue);
      ghost var before := cues;
      cues := cues + [cue];
      forall j | 0 <= j <= k ensures IsNext(cues, |made|, clock, shares, cards, j) {
        NextStays(before, cue, |made|, clock, shares, cards, j);
      }
      at := at + shares[k];
    }
    assert cards[..|cards|] == cards && shares[..|cards|] == shares;
    AllTimed(cues, |made|, cards, d, clock, shares);
  }

  function Seconds(a: Audio): (r: real) {
    if a.Lasts? then a.seconds else 0.0
  }

  /** The pause after line i, if the list has one. */
  function PauseAfter(pauses: seq<real>, i: nat): (r: real) {
    if i < |pauses| then pauses[i] else 0.0
  }

  /** When line i begins: everything before it, pauses included. */
  function ClockAt(audio: seq<Audio>, pauses: seq<real>, i: nat): (r: real)
    requires i <= |audio|
  {
    if i == 0 then 0.0 else ClockAt(audio, pauses, i - 1) + Seconds(audio[i - 1]) + PauseAfter(pauses, i - 1)
  }

  /** The clock goes on by the length of the recording and by the pause after it, as far as the list of pauses goes. */
  lemma ClockAdvances(audio: seq<Audio>, pauses: seq<real>, i: nat)
    requires i < |audio| && audio[i].Lasts?
    ensures ClockAt(audio, pauses, 0) == 0.0
    ensures ClockAt(audio, pauses, i + 1) ==
            ClockAt(audio, pauses, i) + audio[i].seconds + if i < |pauses| then pauses[i] else 0.0
  {
  }

  function Flat(lines: seq<seq<string>>): (r: seq<string>) {
    if lines == [] then [] else Flat(lines[..|lines| - 1]) + lines[|lines| - 1]
  }

  /** What holds of a line whose first card is cue `first`. Its cards share its recording by length, and the last one
      ends exactly when the recording does; only the empty line, whose card has no length to share the time by, ends
      where it began. */
  ghost predicate LineDone(cues: seq<Cue>, text: string, audio: Audio, start: real, cards: seq<string>, first: nat) {
    && Readable(audio) && IsCut(text, cards) && cards != []
    && CardsTimed(cues, first, cards, Seconds(audio), start)
    && cues[first + |cards| - 1].end == start + if text == "" then 0.0 else Seconds(audio)
  }

  /** Recordings of positive length, and pauses that do not go back in time. */
  predicate GoesForward(audio: seq<Audio>, pauses: seq<real>) {
    && (forall a :: a in audio ==> Seconds(a) > 0.0)
    && (forall p :: p in pauses ==> p >= 0.0)
  }

  /** One line of narration: its cards, after the ones made so far. */
  method AddLine(text: string, audio: Audio, clock: real, made: seq<Cue>)
    returns (r: Result<seq<Cue>, Stop>, ghost cards: seq<string>)
    ensures r.Ok? <==> Readable(audio)
    ensures r.Err? ==> r.error == if audio.Missing? then NoFile else NoDuration
    ensures r.Ok? ==> |r.value| > |made| && made == r.value[..|made|] && TextsOf(r.value) == TextsOf(made) + cards
    ensures r.Ok? ==> LineDone(r.value, text, audio, clock, cards, |made|)
    ensures r.Ok? && DoneBy(made, clock) && Seconds(audio) > 0.0 ==> DoneBy(r.value, clock + Seconds(audio))
  {
    cards := [];
    if audio.Missing? {
      return Err(NoFile), [];
    }
    if audio.Unreadable? || audio.seconds == 0.0 {
      return Err(NoDuration), [];
    }
    var cut := Cut(text);
    var cues := AddCards(cut, audio.seconds, clock, made);
    return Ok(cues), cut;
  }

  /** Line j: its cards are the cues right after those of the lines before it. */
  ghost predicate LineAt(cues: seq<Cue>, narration: seq<string>, audio: seq<Audio>, pauses: seq<real>,
                         lines: seq<seq<string>>, j: nat)
    requires j < |narration| == |audio| && j < |lines|
  {
    LineDone(cues, narration[j], audio[j], ClockAt(audio, pauses, j), lines[j], |Flat(lines[..j])|)
  }

  lemma LineStays(cues: seq<Cue>, cues': seq<Cue>, text: string, audio: Audio, start: real, cards: seq<string>,
                  first: nat)
    requires LineDone(cues, text, audio, start, cards, first) && |cues| <= |cues'| && cues == cues'[..|cues|]
    ensures LineDone(cues', text, audio, start, cards, first)
  {
    CardsStayTimed(cues, cues', first, cards, Seconds(audio), start);
    assert cues[first + |cards| - 1] == cues'[first + |cards| - 1];
  }

  lemma FlatNext(lines: seq<seq<string>>, cards: seq<string>)
    ensures Flat(lines + [cards]) == Flat(lines) + cards
  {
    assert (lines + [cards])[..|lines|] == lines;
  }

  /** The lines before line j do not change when another line is added. */
  lemma LineAtStays(cues: seq<Cue>, cues': seq<Cue>, narration: seq<string>, audio: seq<Audio>, pauses: seq<real>,
                    lines: seq<seq<string>>, cards: seq<string>, j: nat)
    requires j < |narration| == |audio| && j < |lines| && LineAt(cues, narration, audio, pauses, lines, j)
    requires |cues| <= |cues'| && cues == cues'[..|cues|]
    ensures LineAt(cues', narration, audio, pauses, lines + [cards], j)
  {
    assert (lines + [cards])[..j] == lines[..j];
    LineStays(cues, cues', narration[j], audio[j], ClockAt(audio, pauses, j), lines[j], |Flat(lines[..j])|);
  }

  /** Line j is the first one without a readable recording. */
  predicate StopsAt(audio: seq<Audio>, j: nat, error: Stop)
    requires j < |audio|
  {
    && (forall i :: 0 <= i < j ==> audio[i].Lasts? && audio[i].seconds != 0.0)
    && match error
       case NoFile => audio[j].Missing?
       case NoDuration => audio[j].Unreadable? || (audio[j].Lasts? && audio[j].seconds == 0.0)
  }

  /** `lines` are the cards of each line: read in order they are the texts of all cues. */
  method Segments(narration: seq<string>, audio: seq<Audio>, pauses: seq<real>)
    returns (r: Result<seq<Cue>, Stop>, ghost lines: seq<seq<string>>)
    requires |audio| == |narration|
    ensures r.Ok? <==> forall a :: a in audio ==> a.Lasts? && a.seconds != 0.0
    ensures r.Err? ==> exists j :: 0 <= j < |audio| && StopsAt(audio, j, r.error)
    ensures r.Ok? ==> |lines| == |narration| && TextsOf(r.value) == Flat(lines)
    ensures r.Ok? ==> forall j {:trigger LineAt(r.value, narration, audio, pauses, lines, j)} ::
      0 <= j < |narration| ==> LineAt(r.value, narration, audio, pauses, lines, j)
    ensures r.Ok? && GoesForward(audio, pauses) ==> WellTimed(r.value)
  {
    var clock := 0.0;
    var cues: seq<Cue> := [];
    lines := [];
    for i := 0 to |narration|
      invariant clock == ClockAt(audio, pauses, i)
      invariant |lines| == i && TextsOf(cues) == Flat(lines)
      invariant forall a :: a in audio[..i] ==> Readable(a)
      invariant forall j :: 0 <= j < i ==> Readable(audio[j])
      invariant forall j {:trigger LineAt(cues, narration, audio, pauses, lines, j)} ::
        0 <= j < i ==> LineAt(cues, narration, audio, pauses, lines, j)
      invariant GoesForward(audio, pauses) ==> DoneBy(cues, clock)
    {
      assert audio[i] in audio && (i < |pauses| ==> pauses[i] in pauses);
      assert audio[..i + 1] == audio[..i] + [audio[i]];
      var added;
      ghost var cards;
      added, cards := AddLine(narration[i], audio[i], clock, cues);
      if added.Err? {
        assert StopsAt(audio, i, added.error);
        return Err(added.error), lines;
      }
      FlatNext(lines, cards);
      ghost var lines' := lines + [cards];
      assert lines'[..i] == lines && |TextsOf(cues)| == |cues|;
      forall j | 0 <= j <= i ensures LineAt(added.value, narration, audio, pauses, lines', j) {
        if j < i {
          LineAtStays(cues, added.value, narration, audio, pauses, lines, cards, j);
        }
      }
      cues, lines := added.value, lines';
      clock := clock + audio[i].seconds + PauseAfter(pauses, i);
    }
    assert audio[..|audio|] == audio;
    return Ok(cues), lines;
  }
}
