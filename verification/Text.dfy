/** The string helpers of the JavaScript runtime that the modelled code relies on. */
module Text {
  import opened Lists

  /** White space and line terminators, as `String.prototype.trim` strips them. */
  predicate IsSpace(c: char) {
    || c == ' ' || '\t' <= c <= '\r' || c == '\U{00A0}' || c == '\U{1680}' || '\U{2000}' <= c <= '\U{200A}'
    || c == '\U{2028}' || c == '\U{2029}' || c == '\U{202F}' || c == '\U{205F}' || c == '\U{3000}' || c == '\U{FEFF}'
  }

  function TrimStart(s: string): (r: string)
    ensures r == [] || !IsSpace(r[0])
    ensures |r| <= |s| && r == s[|s| - |r|..]
  {
    if s != [] && IsSpace(s[0]) then TrimStart(s[1..]) else s
  }

  function TrimEnd(s: string): (r: string)
    ensures r == [] || !IsSpace(r[|r| - 1])
    ensures |r| <= |s| && r == s[..|r|]
  {
    if s != [] && IsSpace(s[|s| - 1]) then TrimEnd(s[..|s| - 1]) else s
  }

  function Trim(s: string): string {
    TrimEnd(TrimStart(s))
  }

  predicate Trimmed(s: string) {
    s == [] || (!IsSpace(s[0]) && !IsSpace(s[|s| - 1]))
  }

  lemma TrimIsTrimmed(s: string)
    ensures Trimmed(Trim(s))
    ensures Trimmed(s) ==> Trim(s) == s
  {
    var t := TrimStart(s);
    var u := TrimEnd(t);
    if u != [] {
      assert u[0] == t[0];
    }
  }

  predicate AllSpace(s: string) {
    forall i :: 0 <= i < |s| ==> IsSpace(s[i])
  }

  lemma {:induction false} TrimStartStopsAt(p: string, rest: string)
    requires rest != "" && !IsSpace(rest[0])
    ensures TrimStart(p + rest) == TrimStart(p) + rest
  {
    hide IsSpace;
    if p == "" {
      assert p + rest == rest;
      assert TrimStart(p) == "" && TrimStart(rest) == rest;
    } else {
      assert (p + rest)[0] == p[0] && (p + rest)[1..] == p[1..] + rest;
      if IsSpace(p[0]) {
        TrimStartStopsAt(p[1..], rest);
      }
    }
  }

  lemma {:induction false} TrimStartOfSpace(p: string)
    ensures TrimStart(p) == "" <==> AllSpace(p)
  {
    hide IsSpace;
    if p != "" && IsSpace(p[0]) {
      TrimStartOfSpace(p[1..]);
      assert p == [p[0]] + p[1..];
    }
  }

  lemma {:induction false} TrimEndStopsAt(head: string, x: string)
    requires head != "" && !IsSpace(head[|head| - 1])
    ensures TrimEnd(head + x) == head + TrimEnd(x)
  {
    hide IsSpace;
    if x == "" {
      assert head + x == head;
    } else {
      var s, n := head + x, |x| - 1;
      assert s[|s| - 1] == x[n];
      if IsSpace(x[n]) {
        assert s[..|s| - 1] == head + x[..n];
        TrimEndStopsAt(head, x[..n]);
      }
    }
  }

  lemma {:induction false} TrimEndOfSpace(x: string)
    ensures TrimEnd(x) == "" <==> AllSpace(x)
  {
    hide IsSpace;
    if x != "" && IsSpace(x[|x| - 1]) {
      TrimEndOfSpace(x[..|x| - 1]);
      assert x == x[..|x| - 1] + [x[|x| - 1]];
    }
  }

  /** Every run of characters of a kind becomes one mark: `replace(/[...]+/g, mark)`. */
  function ReplaceRuns(s: string, kind: char -> bool, mark: char, inRun: bool): string {
    if s == "" then ""
    else if !kind(s[0]) then [s[0]] + ReplaceRuns(s[1..], kind, mark, false)
    else if inRun then ReplaceRuns(s[1..], kind, mark, true)
    else [mark] + ReplaceRuns(s[1..], kind, mark, true)
  }

  /** Nothing of the kind is left but marks, and no two marks of the kind in a row. */
  ghost predicate RunsReplaced(s: string, kind: char -> bool, mark: char) {
    && (forall i :: 0 <= i < |s| && kind(s[i]) ==> s[i] == mark)
    && (forall i :: 0 <= i < |s| - 1 && s[i] == mark && kind(mark) ==> s[i + 1] != mark)
  }

  lemma {:induction false} ReplaceRunsReplaces(s: string, kind: char -> bool, mark: char, inRun: bool)
    ensures var r := ReplaceRuns(s, kind, mark, inRun);
            && RunsReplaced(r, kind, mark)
            && (inRun && kind(mark) && r != "" ==> r[0] != mark)
            && (forall i :: 0 <= i < |r| ==> r[i] == mark || r[i] in s)
  {
    if s != "" {
      ReplaceRunsReplaces(s[1..], kind, mark, kind(s[0]));
    }
  }

  /** The stretches of characters that are not of the kind, in order. */
  function Words(s: string, kind: char -> bool): (words: seq<string>)
    ensures s != "" && !kind(s[0]) ==> words != []
  {
    if s == "" then []
    else
      var words := Words(s[1..], kind);
      if kind(s[0]) then words
      else if |s| == 1 || kind(s[1]) then [[s[0]]] + words
      else [[s[0]] + words[0]] + words[1..]
  }

  /** A replacement within a wider kind changes no words. */
  lemma {:induction false} ReplaceRunsKeepsWords(s: string, kind: char -> bool, mark: char, inRun: bool, wider: char -> bool)
    requires wider(mark) && forall c :: kind(c) ==> wider(c)
    ensures var r := ReplaceRuns(s, kind, mark, inRun);
            && Words(r, wider) == Words(s, wider)
            && (!inRun ==> (r == "" <==> s == "") && (s != "" ==> (wider(r[0]) <==> wider(s[0]))))
            && (!inRun && s != "" && !wider(s[0]) ==> r[0] == s[0])
  {
    if s != "" {
      ReplaceRunsKeepsWords(s[1..], kind, mark, kind(s[0]), wider);
      var r := ReplaceRuns(s, kind, mark, inRun);
      if !kind(s[0]) {
        assert r[1..] == ReplaceRuns(s[1..], kind, mark, false);
      } else if !inRun {
        assert r[1..] == ReplaceRuns(s[1..], kind, mark, true);
      }
    }
  }

  function Joined(words: seq<string>, mark: char): string {
    if words == [] then "" else Join(words, mark)
  }

  /** Only single marks, and none at the ends. */
  ghost predicate Apart(s: string, kind: char -> bool, mark: char) {
    && RunsReplaced(s, kind, mark)
    && (s != "" ==> !kind(s[0]) && !kind(s[|s| - 1]))
  }

  /** Such a text is its words with single marks between them. */
  lemma {:induction false} WordsAreJoined(s: string, kind: char -> bool, mark: char)
    requires kind(mark) && Apart(s, kind, mark)
    ensures s == Joined(Words(s, kind), mark)
    decreases |s|
  {
    if |s| == 1 {
      assert s[1..] == "" && s == [s[0]];
    } else if s != "" {
      assert s == [s[0]] + s[1..];
      if kind(s[1]) {
        var rest := s[2..];
        assert s[1..][1..] == rest && rest != "";
        assert s[2] != mark;
        assert Apart(rest, kind, mark);
        WordsAreJoined(rest, kind, mark);
        JoinCons([s[0]], Words(rest, kind), mark);
        assert s == [s[0]] + [mark] + rest;
      } else {
        var rest := s[1..];
        assert Apart(rest, kind, mark);
        WordsAreJoined(rest, kind, mark);
        LongerHead(s[0], Words(rest, kind), mark);
      }
    }
  }

  lemma LongerHead(c: char, words: seq<string>, mark: char)
    requires words != []
    ensures Join([[c] + words[0]] + words[1..], mark) == [c] + Join(words, mark)
  {
    if |words| > 1 {
      JoinCons([c] + words[0], words[1..], mark);
      assert [words[0]] + words[1..] == words;
      JoinCons(words[0], words[1..], mark);
      assert ([c] + words[0]) + [mark] + Join(words[1..], mark) == [c] + (words[0] + [mark] + Join(words[1..], mark));
    }
  }

  /** The first word starts where the text does, if not with a character of the kind. */
  lemma HeadOfWords(s: string, kind: char -> bool)
    requires s != "" && !kind(s[0])
    ensures Words(s, kind) != [] && Words(s, kind)[0] != "" && Words(s, kind)[0][0] == s[0]
  {
  }

  /** Characters of the kind at the ends belong to no word. */
  lemma {:induction false} NoWordAtTheEnd(s: string, last: char, kind: char -> bool)
    requires kind(last)
    ensures Words(s + [last], kind) == Words(s, kind)
  {
    if s == "" {
      assert s + [last] == [last] && [last][1..] == "";
    } else {
      assert (s + [last])[1..] == s[1..] + [last];
      NoWordAtTheEnd(s[1..], last, kind);
    }
  }

  function LowerChar(c: char): char {
    if 'A' <= c <= 'Z' then 'a' + (c - 'A') else c
  }

  function Lower(s: string): (r: string)
    ensures |r| == |s|
  {
    seq(|s|, i requires 0 <= i < |s| => LowerChar(s[i]))
  }

  lemma LowerKeepsTrimmed(s: string)
    requires Trimmed(s)
    ensures Trimmed(Lower(s)) && Lower(Lower(s)) == Lower(s)
  {
  }

  // ---- Splitting and joining ------------------------------------------------------------------

  /** `text.split(c)` */
  function Split(text: string, c: char): (parts: seq<string>)
    ensures |parts| > 0
    decreases |text|
  {
    var i := IndexOf(text, c);
    if i == |text| then [text] else [text[..i]] + Split(text[i + 1..], c)
  }

  function Join(parts: seq<string>, c: char): string
    requires |parts| > 0
  {
    if |parts| == 1 then parts[0] else parts[0] + [c] + Join(parts[1..], c)
  }

  ghost predicate Free(parts: seq<string>, c: char) {
    forall k :: 0 <= k < |parts| ==> c !in parts[k]
  }

  lemma IndexOfFirst(head: string, c: char, tail: string)
    requires c !in head
    ensures IndexOf(head + [c] + tail, c) == |head|
  {
    var text := head + [c] + tail;
    assert text[|head|] == c;
    assert forall j :: 0 <= j < |head| ==> text[j] == head[j];
  }

  lemma JoinCons(head: string, rest: seq<string>, c: char)
    requires |rest| > 0
    ensures Join([head] + rest, c) == head + [c] + Join(rest, c)
  {
    assert ([head] + rest)[1..] == rest;
  }

  /** Splitting undoes joining for pieces free of the separator. */
  lemma {:induction false} SplitOfJoin(parts: seq<string>, c: char)
    requires |parts| > 0 && Free(parts, c)
    ensures Split(Join(parts, c), c) == parts
  {
    if |parts| == 1 {
      var i := IndexOf(parts[0], c);
    } else {
      hide Join;
      var head, rest := parts[0], parts[1..];
      var tail := Join(rest, c);
      SplitOfJoin(rest, c);
      JoinCons(head, rest, c);
      assert parts == [head] + rest;
      SplitAtFirst(head, c, tail);
    }
  }

  lemma SplitAtFirst(head: string, c: char, tail: string)
    requires c !in head
    ensures Split(head + [c] + tail, c) == [head] + Split(tail, c)
  {
    var text := head + [c] + tail;
    IndexOfFirst(head, c, tail);
    assert text[..|head|] == head && text[|head| + 1..] == tail;
  }

  lemma AroundIndex(text: string, i: nat)
    requires i < |text|
    ensures text == text[..i] + [text[i]] + text[i + 1..]
  {
  }

  lemma FreeBefore(text: string, c: char, i: nat)
    requires i <= |text| && forall j :: 0 <= j < i ==> text[j] != c
    ensures c !in text[..i]
  {
  }

  lemma SplitStep(text: string, c: char)
    requires IndexOf(text, c) < |text|
    ensures Split(text, c) == [text[..IndexOf(text, c)]] + Split(text[IndexOf(text, c) + 1..], c)
  {
    hide IndexOf;
  }

  /** Joining undoes splitting, always. */
  lemma {:induction false} JoinOfSplit(text: string, c: char)
    ensures Join(Split(text, c), c) == text && Free(Split(text, c), c)
    decreases |text|
  {
    var i := IndexOf(text, c);
    if i < |text| {
      hide Join, IndexOf, Split;
      SplitStep(text, c);
      AroundIndex(text, i);
      FreeBefore(text, c, i);
      JoinOfSplit(text[i + 1..], c);
      JoinCons(text[..i], Split(text[i + 1..], c), c);
    }
  }
}
