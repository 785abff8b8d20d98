/** The `.env` reader and writer of the setup script, as a lens: when writing one key is what reading sees. */
module EnvFile {
  import opened Common
  import opened Lists
  import opened Text

  type EnvMap = map<string, string>

  // ---- Reading -------------------------------------------------------------------------------

  predicate IsQuote(c: char) {
    c == '"' || c == '\''
  }

  /** One quote off the front, then one off the end. */
  function Unquote(s: string): string {
    var t := if s != "" && IsQuote(s[0]) then s[1..] else s;
    if t != "" && IsQuote(t[|t| - 1]) then t[..|t| - 1] else t
  }

  datatype Entry = Entry(key: string, value: string)

  /** What a line defines: blank lines, comments and lines without '=' define nothing. */
  function ParseLine(line: string): Option<Entry> {
    var t := Trim(line);
    var i := IndexOf(t, '=');
    if t == "" || t[0] == '#' || i == |t| then None else Some(Entry(t[..i], Unquote(t[i + 1..])))
  }

  /** Later lines overwrite earlier ones. */
  function ParseLines(lines: seq<string>): EnvMap {
    if lines == [] then map[]
    else
      var env := ParseLines(lines[..|lines| - 1]);
      match ParseLine(lines[|lines| - 1])
      case Some(e) => env[e.key := e.value]
      case None => env
  }

  function Parse(contents: string): EnvMap {
    ParseLines(Split(contents, '\n'))
  }

  method ParseEnv(contents: string) returns (env: EnvMap)
    ensures env == Parse(contents)
  {
    hide ParseLine, Split;
    var lines := Split(contents, '\n');
    env := map[];
    for i := 0 to |lines|
      invariant env == ParseLines(lines[..i])
    {
      assert lines[..i + 1][..i] == lines[..i];
      var entry := ParseLine(lines[i]);
      if entry.Some? {
        env := env[entry.value.key := entry.value.value];
      }
    }
    assert lines[..|lines|] == lines;
  }

  // ---- Writing -------------------------------------------------------------------------------

  /** Where `^` and `$` match inside a text, and what `.` does not match. */
  predicate IsTerminator(c: char) {
    c == '\n' || c == '\r' || c == '\U{2028}' || c == '\U{2029}'
  }

  predicate StartsWith(s: string, prefix: string) {
    prefix <= s
  }

  /** The first position at the start of a line where `prefix` stands. */
  function FindLine(s: string, prefix: string, atStart: bool): (r: Option<nat>)
    ensures r.Some? ==> r.value <= |s|
    decreases |s|
  {
    if atStart && StartsWith(s, prefix) then Some(0)
    else if s == "" then None
    else
      match FindLine(s[1..], prefix, IsTerminator(s[0]))
      case Some(i) => Some(i + 1)
      case None => None
  }

  function LineEnd(s: string): (n: nat)
    ensures n <= |s|
  {
    if s == "" || IsTerminator(s[0]) then 0 else 1 + LineEnd(s[1..])
  }

  /** The replacement text of `String.replace`: `$$`, `$&`, `` $` `` and `$'` stand for something else. */
  function Expand(replacement: string, before: string, matched: string, after: string): string {
    if |replacement| < 2 then replacement
    else if replacement[0] != '$' then [replacement[0]] + Expand(replacement[1..], before, matched, after)
    else
      var rest := Expand(replacement[2..], before, matched, after);
      match replacement[1]
      case '$' => "$" + rest
      case '&' => matched + rest
      case '`' => before + rest
      case '\'' => after + rest
      case _ => "$" + Expand(replacement[1..], before, matched, after)
  }

  predicate IsKeyChar(c: char) {
    'A' <= c <= 'Z' || 'a' <= c <= 'z' || '0' <= c <= '9' || c == '_'
  }

  /** A key that stands for itself in the pattern. */
  predicate PlainKey(key: string) {
    key != "" && forall i :: 0 <= i < |key| ==> IsKeyChar(key[i])
  }

  predicate EndsInFeed(s: string) {
    s == "" || s[|s| - 1] == '\n'
  }

  /** Replaces the first line `key=...`, or adds one at the end. */
  function Upsert(contents: string, key: string, value: string): string
    requires PlainKey(key)
  {
    var line := key + "=" + value;
    match FindLine(contents, key + "=", true)
    case Some(i) =>
      var n := LineEnd(contents[i..]);
      contents[..i] + Expand(line, contents[..i], contents[i..i + n], contents[i + n..]) + contents[i + n..]
    case None =>
      contents + (if EndsInFeed(contents) then "" else "\n") + line + "\n"
  }

  predicate SingleLine(value: string) {
    forall i :: 0 <= i < |value| ==> !IsTerminator(value[i])
  }

  /** A value that survives the trip: no line feed, no dollar sign, no outer white space and no outer quote. */
  predicate PlainValue(value: string) {
    && (forall i :: 0 <= i < |value| ==> value[i] != '\n' && value[i] != '$')
    && Trimmed(value)
    && (value != "" ==> !IsQuote(value[0]) && !IsQuote(value[|value| - 1]))
  }

  // ---- Writing, line by line -----------------------------------------------------------------

  /** `prefix` stands at position k, at the start of a line in the sense of the pattern. */
  predicate Begins(s: string, k: nat, prefix: string, atStart: bool) {
    k <= |s| && (if k == 0 then atStart else IsTerminator(s[k - 1])) && StartsWith(s[k..], prefix)
  }

  /** The pattern finds the first line that begins with the prefix, and none only if there is none. */
  lemma {:induction false} FindLineIsTheFirst(s: string, prefix: string, atStart: bool)
    ensures match FindLine(s, prefix, atStart)
            case Some(i) => Begins(s, i, prefix, atStart) && forall k: nat :: k < i ==> !Begins(s, k, prefix, atStart)
            case None => forall k: nat :: !Begins(s, k, prefix, atStart)
  {
    hide IsTerminator, StartsWith;
    assert s[0..] == s;
    if s != "" && !Begins(s, 0, prefix, atStart) {
      var rest := s[1..];
      FindLineIsTheFirst(rest, prefix, IsTerminator(s[0]));
      forall k: nat ensures Begins(s, k + 1, prefix, atStart) <==> Begins(rest, k, prefix, IsTerminator(s[0])) {
        if k < |s| {
          assert s[k + 1..] == rest[k..];
        }
      }
      forall k: nat | k > 0 ensures Begins(s, k, prefix, atStart) <==> Begins(rest, k - 1, prefix, IsTerminator(s[0])) {
        assert Begins(s, k - 1 + 1, prefix, atStart) <==> Begins(rest, k - 1, prefix, IsTerminator(s[0]));
      }
    }
  }

  lemma FirstBeginningIsFound(s: string, prefix: string, i: nat)
    requires Begins(s, i, prefix, true) && forall k: nat :: k < i ==> !Begins(s, k, prefix, true)
    ensures FindLine(s, prefix, true) == Some(i)
  {
    hide FindLine, Begins;
    FindLineIsTheFirst(s, prefix, true);
  }

  /** Where line `d` starts in the joined text. */
  function Offset(lines: seq<string>, d: nat): nat
    requires d < |lines|
  {
    if d == 0 then 0 else |lines[0]| + 1 + Offset(lines[1..], d - 1)
  }

  /** The line that holds position i of the joined text. */
  function LineAt(lines: seq<string>, i: nat): (d: nat)
    requires |lines| > 0
    ensures d < |lines|
  {
    if |lines| == 1 || i <= |lines[0]| then 0 else 1 + LineAt(lines[1..], i - |lines[0]| - 1)
  }

  lemma {:induction false} LineHoldsItsPositions(lines: seq<string>, i: nat)
    requires |lines| > 0 && i <= |Join(lines, '\n')|
    ensures var d := LineAt(lines, i); Offset(lines, d) <= i <= Offset(lines, d) + |lines[d]|
  {
    if |lines| > 1 && i > |lines[0]| {
      LineHoldsItsPositions(lines[1..], i - |lines[0]| - 1);
    }
  }

  /** Where the line about to be replaced starts: a line of the reader, and a column in it. */
  datatype Site = Site(line: nat, column: nat)

  function SiteOf(contents: string, key: string): (r: Option<Site>)
    ensures r.Some? <==> FindLine(contents, key + "=", true).Some?
    ensures r.Some? ==>
              var lines := Split(contents, '\n');
              && r.value.line < |lines| && r.value.column <= |lines[r.value.line]|
              && FindLine(contents, key + "=", true) == Some(Offset(lines, r.value.line) + r.value.column)
  {
    match FindLine(contents, key + "=", true)
    case None => None
    case Some(i) =>
      var lines := Split(contents, '\n');
      JoinOfSplit(contents, '\n');
      LineHoldsItsPositions(lines, i);
      Some(Site(LineAt(lines, i), i - Offset(lines, LineAt(lines, i))))
  }

  /** What of a line stays after the part the pattern matches at a column. */
  function RestFrom(was: string, column: nat): string
    requires column <= |was|
  {
    was[column..][LineEnd(was[column..])..]
  }

  /** A line with the part matched at a column replaced. */
  function WithBody(was: string, column: nat, body: string): string
    requires column <= |was|
  {
    was[..column] + body + RestFrom(was, column)
  }

  /** What follows a line in the joined text. */
  predicate IsTail(tail: string) {
    tail == "" || tail[0] == '\n'
  }

  lemma PrefixStaysInLine(line: string, tail: string, prefix: string)
    requires '\n' !in prefix && IsTail(tail)
    ensures StartsWith(line + tail, prefix) <==> StartsWith(line, prefix)
  {
    var s := line + tail;
    if StartsWith(s, prefix) {
      assert |line| < |s| ==> s[|line|] == '\n';
      assert |prefix| <= |line|;
      assert line[..|prefix|] == prefix;
    }
  }

  lemma {:induction false} LineEndStaysInLine(line: string, tail: string)
    requires IsTail(tail)
    ensures LineEnd(line + tail) == LineEnd(line)
  {
    if line == "" {
      assert line + tail == tail;
    } else {
      LineEndStaysInLine(line[1..], tail);
      assert (line + tail)[1..] == line[1..] + tail;
    }
  }

  lemma Regroup(a: string, b: string, c: string, d: string)
    ensures a + b + (c + d) == a + (b + c) + d == a + (b + c + d) == a + b + c + d
  {
  }

  lemma {:induction false} AroundLine(lines: seq<string>, d: nat, x: string) returns (before: string, tail: string)
    requires d < |lines|
    ensures |before| == Offset(lines, d) && IsTail(tail)
    ensures Join(lines, '\n') == before + lines[d] + tail
    ensures Join(lines[d := x], '\n') == before + x + tail
  {
    hide Join;
    var rest := lines[1..];
    assert lines == [lines[0]] + rest;
    if |lines| == 1 {
      before, tail := "", "";
      JoinOne(lines[0]);
      JoinOne(x);
      assert lines == [lines[0]] && lines[0 := x] == [x];
      assert "" + lines[0] + "" == lines[0] && "" + x + "" == x;
    } else if d == 0 {
      before, tail := "", "\n" + Join(rest, '\n');
      JoinCons(lines[0], rest, '\n');
      JoinCons(x, rest, '\n');
      assert lines[0 := x] == [x] + rest;
      assert "" + lines[0] == lines[0] && "" + x == x;
      Regroup("", lines[0], "\n", Join(rest, '\n'));
      Regroup("", x, "\n", Join(rest, '\n'));
    } else {
      var before1;
      before1, tail := AroundLine(rest, d - 1, x);
      var head := lines[0] + "\n";
      before := head + before1;
      JoinCons(lines[0], rest, '\n');
      JoinCons(lines[0], rest[d - 1 := x], '\n');
      assert lines[d := x] == [lines[0]] + rest[d - 1 := x];
      Regroup(head, before1, lines[d], tail);
      Regroup(head, before1, x, tail);
    }
  }

  lemma JoinOne(line: string)
    ensures Join([line], '\n') == line
  {
  }

  lemma Spliced(before: string, was: string, tail: string, n: nat)
    requires n <= |was|
    ensures var s := before + was + tail;
            s[..|before|] == before && s[|before|..] == was + tail && s[|before| + n..] == was[n..] + tail
  {
  }

  lemma SpliceAt(before: string, head: string, body: string, rest: string, tail: string)
    ensures before + (head + body + rest) + tail == (before + head) + body + (rest + tail)
  {
  }

  lemma AroundColumn(before: string, was: string, column: nat, tail: string, n: nat)
    requires column <= |was| && n <= |was| - column
    ensures var (s, i) := (before + was + tail, |before| + column);
            && s[..i] == before + was[..column] && s[i..] == was[column..] + tail
            && s[i + n..] == was[column..][n..] + tail
  {
    var (head, here) := (was[..column], was[column..]);
    assert was == head + here;
    Regroup(before, head, here, tail);
    Spliced(before + head, here, tail, n);
  }

  /** Replacing the matched part in the text replaces it in its line. */
  lemma ReplacedInJoin(lines: seq<string>, d: nat, column: nat, body: string)
    requires d < |lines| && column <= |lines[d]|
    ensures var (s, i) := (Join(lines, '\n'), Offset(lines, d) + column);
            && i <= |s|
            && var n := LineEnd(s[i..]);
               s[..i] + body + s[i + n..] == Join(lines[d := WithBody(lines[d], column, body)], '\n')
  {
    hide Join, Offset, LineEnd, IsTail;
    var was := lines[d];
    var n := LineEnd(was[column..]);
    var before, tail := AroundLine(lines, d, WithBody(was, column, body));
    LineEndStaysInLine(was[column..], tail);
    AroundColumn(before, was, column, tail, n);
    SpliceAt(before, was[..column], body, was[column..][n..], tail);
  }

  /** At the site the line bears the key, right after nothing or a terminator. */
  lemma SiteBearsTheKey(contents: string, key: string)
    requires PlainKey(key) && SiteOf(contents, key).Some?
    ensures var (lines, site) := (Split(contents, '\n'), SiteOf(contents, key).value);
            var was := lines[site.line];
            && StartsWith(was[site.column..], key + "=")
            && (site.column == 0 || IsTerminator(was[site.column - 1]))
  {
    hide Join, Offset, Split, FindLine, StartsWith, IsKeyChar, IsTerminator, SiteOf;
    var (lines, site) := (Split(contents, '\n'), SiteOf(contents, key).value);
    var was := lines[site.line];
    var i := Offset(lines, site.line) + site.column;
    JoinOfSplit(contents, '\n');
    FindLineIsTheFirst(contents, key + "=", true);
    var before, tail := AroundLine(lines, site.line, was);
    assert lines[site.line := was] == lines;
    Spliced(before, was, tail, site.column);
    KeyIsOrdinary(key);
    assert '\n' !in key + "=";
    PrefixStaysInLine(was[site.column..], tail, key + "=");
    if site.column > 0 {
      assert contents[i - 1] == was[site.column - 1];
    }
  }

  lemma {:induction false} ExpandWithoutDollar(line: string, before: string, matched: string, after: string)
    requires '$' !in line
    ensures Expand(line, before, matched, after) == line
  {
    if |line| >= 2 {
      ExpandWithoutDollar(line[1..], before, matched, after);
    }
  }

  lemma {:induction false} JoinAppends(lines: seq<string>, more: seq<string>)
    requires |lines| > 0 && |more| > 0
    ensures Join(lines + more, '\n') == Join(lines, '\n') + "\n" + Join(more, '\n')
  {
    assert (lines + more)[1..] == lines[1..] + more;
    if |lines| > 1 {
      JoinAppends(lines[1..], more);
    }
  }

  lemma JoinWithFinalFeed(line: string)
    ensures Join([line, ""], '\n') == line + "\n"
  {
    JoinCons(line, [""], '\n');
    assert [line] + [""] == [line, ""];
  }

  lemma LastLine(lines: seq<string>)
    requires |lines| > 1
    ensures Join(lines, '\n') == Join(lines[..|lines| - 1], '\n') + "\n" + lines[|lines| - 1]
  {
    hide Join;
    var m := |lines| - 1;
    JoinAppends(lines[..m], [lines[m]]);
    JoinOne(lines[m]);
    assert lines == lines[..m] + [lines[m]];
  }

  lemma EndsInFeedIff(lines: seq<string>)
    requires |lines| > 0 && Free(lines, '\n')
    ensures EndsInFeed(Join(lines, '\n')) <==> lines[|lines| - 1] == ""
  {
    hide Join;
    var last := lines[|lines| - 1];
    assert last != "" ==> last[|last| - 1] != '\n';
    if |lines| == 1 {
      JoinOne(last);
      assert lines == [last];
    } else {
      LastLine(lines);
    }
  }

  function Appended(lines: seq<string>, line: string): (r: seq<string>)
    requires |lines| > 0
    ensures |r| > 0
  {
    if lines[|lines| - 1] == "" then lines[..|lines| - 1] + [line, ""] else lines + [line, ""]
  }

  lemma AppendedAfterText(lines: seq<string>, line: string)
    requires |lines| > 0
    ensures Join(lines, '\n') + "\n" + line + "\n" == Join(lines + [line, ""], '\n')
  {
    hide Join;
    JoinWithFinalFeed(line);
    JoinAppends(lines, [line, ""]);
    Regroup(Join(lines, '\n'), "\n", line, "\n");
  }

  lemma AppendedAfterFeed(lines: seq<string>, line: string)
    requires |lines| > 0 && lines[|lines| - 1] == ""
    ensures Join(lines, '\n') + line + "\n" == Join(lines[..|lines| - 1] + [line, ""], '\n')
  {
    hide Join;
    var m := |lines| - 1;
    JoinWithFinalFeed(line);
    if m == 0 {
      JoinOne("");
      assert lines == [""] && lines[..0] + [line, ""] == [line, ""];
      assert "" + line + "\n" == line + "\n";
    } else {
      LastLine(lines);
      JoinAppends(lines[..m], [line, ""]);
      var t := Join(lines[..m], '\n') + "\n";
      assert t + "" == t;
      Regroup(t, line, "\n", "");
    }
  }

  /** A line added after the last one; a final line feed is not doubled. */
  lemma AppendedInJoin(lines: seq<string>, line: string)
    requires |lines| > 0 && Free(lines, '\n')
    ensures var s := Join(lines, '\n');
            s + (if EndsInFeed(s) then "" else "\n") + line + "\n" == Join(Appended(lines, line), '\n')
  {
    hide Join, EndsInFeed, Free;
    var s := Join(lines, '\n');
    EndsInFeedIff(lines);
    assert s + "" == s;
    if lines[|lines| - 1] == "" {
      AppendedAfterFeed(lines, line);
    } else {
      AppendedAfterText(lines, line);
    }
  }

  lemma UpsertFound(contents: string, key: string, value: string, i: nat)
    requires PlainKey(key) && '$' !in value && FindLine(contents, key + "=", true) == Some(i)
    ensures i <= |contents|
    ensures Upsert(contents, key, value) == contents[..i] + (key + "=" + value) + contents[i + LineEnd(contents[i..])..]
  {
    hide FindLine, LineEnd, Expand, PlainKey, EndsInFeed;
    KeyIsOrdinary(key);
    var line, n := key + "=" + value, LineEnd(contents[i..]);
    assert '$' !in line;
    ExpandWithoutDollar(line, contents[..i], contents[i..i + n], contents[i + n..]);
  }

  lemma UpsertMissing(contents: string, key: string, value: string)
    requires PlainKey(key) && FindLine(contents, key + "=", true) == None
    ensures Upsert(contents, key, value) == contents + (if EndsInFeed(contents) then "" else "\n") + (key + "=" + value) + "\n"
  {
    hide FindLine, EndsInFeed;
  }

  /** Replacing in the text, or adding at its end, is replacing in one line or adding one. */
  lemma UpsertIsByLine(contents: string, key: string, value: string)
    requires PlainKey(key) && '$' !in value
    ensures var (lines, site, line) := (Split(contents, '\n'), SiteOf(contents, key), key + "=" + value);
            Upsert(contents, key, value)
            == Join(match site
                    case Some(at) => lines[at.line := WithBody(lines[at.line], at.column, line)]
                    case None => Appended(lines, line), '\n')
  {
    hide Offset, Join, FindLine, LineEnd, Expand, EndsInFeed, Upsert, SiteOf, Split, WithBody, PlainKey, Free, Appended;
    var lines := Split(contents, '\n');
    JoinOfSplit(contents, '\n');
    match SiteOf(contents, key) {
      case Some(at) =>
        UpsertFound(contents, key, value, Offset(lines, at.line) + at.column);
        ReplacedInJoin(lines, at.line, at.column, key + "=" + value);
      case None =>
        UpsertMissing(contents, key, value);
        AppendedInJoin(lines, key + "=" + value);
    }
  }

  // ---- The lens ------------------------------------------------------------------------------------

  /** The last value a key is given, read backwards. */
  function LastValue(lines: seq<string>, key: string): Option<string> {
    if lines == [] then None
    else
      var entry := ParseLine(lines[|lines| - 1]);
      if entry.Some? && entry.value.key == key then Some(entry.value.value) else LastValue(lines[..|lines| - 1], key)
  }

  lemma {:induction false} ParseKeepsLastValues(lines: seq<string>, key: string)
    ensures LastValue(lines, key) == if key in ParseLines(lines) then Some(ParseLines(lines)[key]) else None
  {
    hide ParseLine;
    if lines != [] {
      ParseKeepsLastValues(lines[..|lines| - 1], key);
    }
  }

  predicate Defines(line: string, key: string) {
    var entry := ParseLine(line);
    entry.Some? && entry.value.key == key
  }

  // ---- Reading a line with the key somewhere in it -----------------------------------------------------

  lemma KeyCharIsOrdinary(c: char)
    requires IsKeyChar(c)
    ensures !IsSpace(c) && !IsTerminator(c) && c != '=' && c != '#'
  {
  }

  lemma KeyIsOrdinary(key: string)
    requires PlainKey(key)
    ensures '=' !in key && key[0] != '#' && !IsSpace(key[0]) && '\n' !in key && '$' !in key
  {
    forall i | 0 <= i < |key| ensures !IsSpace(key[i]) && !IsTerminator(key[i]) && key[i] != '=' && key[i] != '#' {
      KeyCharIsOrdinary(key[i]);
    }
  }

  lemma PlainValueIsUnquoted(value: string)
    requires PlainValue(value)
    ensures Unquote(value) == value
  {
  }

  /** What a line says up to the sign after a key that stands in it, white space in front dropped. */
  function HeadOf(p: string, key: string): string {
    TrimStart(p) + key + "="
  }

  lemma EqualSignIsNoSpace()
    ensures !IsSpace('=')
  {
  }

  lemma {:induction false} IndexInHead(head: string, z: string)
    requires '=' in head
    ensures IndexOf(head + z, '=') == IndexOf(head, '=') < |head|
  {
    if head[0] != '=' {
      assert head == [head[0]] + head[1..];
      assert (head + z)[1..] == head[1..] + z;
      IndexInHead(head[1..], z);
    }
  }

  lemma RegroupLine(p: string, key: string, body: string, t: string)
    ensures p + (key + "=" + body) + t == p + (key + "=" + (body + t))
    ensures p + (key + "=" + (body + t)) == (p + key + "=") + (body + t)
  {
  }

  lemma TrimmedLine(p: string, key: string, body: string, t: string)
    requires PlainKey(key)
    ensures Trim(p + (key + "=" + body) + t) == HeadOf(p, key) + TrimEnd(body + t)
  {
    hide IsSpace, PlainKey, TrimStart, TrimEnd;
    KeyIsOrdinary(key);
    var rest := key + "=" + (body + t);
    RegroupLine(p, key, body, t);
    assert key != "" by { PlainKeyIsNotEmpty(key); }
    assert rest[0] == key[0];
    TrimStartStopsAt(p, rest);
    RegroupLine(TrimStart(p), key, body, t);
    EqualSignIsNoSpace();
    TrimEndStopsAt(HeadOf(p, key), body + t);
  }

  lemma PlainKeyIsNotEmpty(key: string)
    requires PlainKey(key)
    ensures key != ""
  {
  }

  /** What a line defines that holds `key=body` somewhere: the key it defines does not depend on the body. */
  lemma LineReads(p: string, key: string, body: string, t: string)
    requires PlainKey(key)
    ensures var head := HeadOf(p, key);
            var e := IndexOf(head, '=');
            && e < |head|
            && ParseLine(p + (key + "=" + body) + t)
               == if head[0] == '#' then None else Some(Entry(head[..e], Unquote(head[e + 1..] + TrimEnd(body + t))))
  {
    hide Trim, TrimEnd, TrimStart, Unquote, IsKeyChar;
    var head, z := HeadOf(p, key), TrimEnd(body + t);
    TrimmedLine(p, key, body, t);
    assert head[|head| - 1] == '=';
    IndexInHead(head, z);
    var e := IndexOf(head, '=');
    var whole := head + z;
    assert whole[0] == head[0] && whole[..e] == head[..e] && whole[e + 1..] == head[e + 1..] + z;
  }

  lemma UnquoteTakesLittle(s: string)
    ensures |Unquote(s)| >= |s| - 2
    ensures s == "" || !IsQuote(s[0]) ==> |Unquote(s)| >= |s| - 1
  {
  }

  lemma SpaceIsNoQuote(c: char)
    ensures IsSpace(c) ==> !IsQuote(c) && c != '='
  {
  }

  lemma TrimmedEndsWhereItDoes(value: string, t: string)
    requires Trimmed(value) && (t == "" || IsSpace(t[0]))
    ensures if AllSpace(t) then TrimEnd(value + t) == value
            else |TrimEnd(value + t)| >= |value| + 2 && TrimEnd(value + t)[..|value| + 1] == value + [t[0]]
  {
    hide IsSpace;
    TrimEndOfSpace(t);
    if value == "" {
      assert value + t == t;
    } else {
      TrimEndStopsAt(value, t);
    }
    var e := TrimEnd(t);
    if e != "" {
      assert e[0] == t[0] && !IsSpace(e[|e| - 1]);
    }
    assert AllSpace(t) ==> value + e == value;
    assert !AllSpace(t) ==> TrimEnd(value + t) == value + e && (value + e)[..|value| + 1] == value + [e[0]];
  }

  /** A head that gives the key earlier than at its end is at least two longer than the key. */
  lemma KeyBeforeTheEnd(q: string, key: string)
    requires PlainKey(key) && q != "" && q[|q| - 1] != '='
    requires IndexOf(q + key + "=", '=') == |key|
    ensures |q| >= |key| + 2
  {
    hide IsKeyChar;
    KeyIsOrdinary(key);
    var head := q + key + "=";
    forall i | |q| <= i < |q| + |key| ensures head[i] != '=' {
      assert head[i] == key[i - |q|];
    }
    assert |key| < |q|;
    assert head[|key|] == q[|key|];
  }

  lemma KeyFromTheStart(key: string, value: string, t: string)
    requires PlainKey(key) && PlainValue(value) && (t == "" || IsSpace(t[0]))
    ensures Unquote(TrimEnd(value + t)) == value <==> AllSpace(t)
  {
    hide IsSpace, IsKeyChar, TrimEnd, Unquote, IsQuote;
    var z := TrimEnd(value + t);
    TrimmedEndsWhereItDoes(value, t);
    PlainValueIsUnquoted(value);
    UnquoteTakesLittle(z);
    if !AllSpace(t) {
      SpaceIsNoQuote(t[0]);
      assert z[0] == (value + [t[0]])[0];
      if value != "" {
        PlainValueStart(value);
      }
    }
  }

  /** With something before it the key is not all the line defines, or the value holds more. */
  lemma KeyInTheMiddle(q: string, key: string, value: string, t: string)
    requires PlainKey(key) && PlainValue(value) && (t == "" || IsSpace(t[0]))
    requires q != "" && q[|q| - 1] != '='
    ensures var (head, z) := (q + key + "=", TrimEnd(value + t));
            var e := IndexOf(head, '=');
            e < |head| ==> !(head[..e] == key && Unquote(head[e + 1..] + z) == value)
  {
    hide IsSpace, IsKeyChar, TrimEnd, Unquote, IsQuote;
    var (head, z) := (q + key + "=", TrimEnd(value + t));
    var e := IndexOf(head, '=');
    TrimmedEndsWhereItDoes(value, t);
    if e < |head| && head[..e] == key {
      KeyBeforeTheEnd(q, key);
      UnquoteTakesLittle(head[e + 1..] + z);
    }
  }

  lemma WholeLineFromTheStart(p: string, key: string, value: string, t: string)
    requires PlainKey(key) && PlainValue(value) && TrimStart(p) == "" && (t == "" || IsSpace(t[0]))
    ensures ParseLine(p + (key + "=" + value) + t) == Some(Entry(key, value)) <==> AllSpace(t)
  {
    hide IsSpace, PlainKey, PlainValue, ParseLine, TrimStart, TrimEnd, Unquote, AllSpace;
    LineReads(p, key, value, t);
    KeyIsOrdinary(key);
    PlainKeyIsNotEmpty(key);
    var head := key + "=" + "";
    assert HeadOf(p, key) == head;
    IndexOfFirst(key, '=', "");
    assert head[..|key|] == key && head[|key| + 1..] == "";
    assert "" + TrimEnd(value + t) == TrimEnd(value + t);
    KeyFromTheStart(key, value, t);
  }

  /** A written body reads back as key and value exactly if nothing but white space stands around it. */
  lemma WholeLineIff(p: string, key: string, value: string, t: string)
    requires PlainKey(key) && PlainValue(value)
    requires (p == "" || IsSpace(p[|p| - 1])) && (t == "" || IsSpace(t[0]))
    ensures ParseLine(p + (key + "=" + value) + t) == Some(Entry(key, value)) <==> AllSpace(p) && AllSpace(t)
  {
    hide IsSpace, ParseLine, TrimStart, TrimEnd, Unquote, PlainKey, PlainValue, AllSpace;
    var q := TrimStart(p);
    TrimStartOfSpace(p);
    if q == "" {
      WholeLineFromTheStart(p, key, value, t);
    } else {
      LineReads(p, key, value, t);
      assert q[|q| - 1] == p[|p| - 1];
      SpaceIsNoQuote(q[|q| - 1]);
      KeyInTheMiddle(q, key, value, t);
    }
  }

  lemma PlainValueStart(value: string)
    requires PlainValue(value) && value != ""
    ensures !IsQuote(value[0])
  {
  }

  /** The line that gives the key its value; none when it is not defined. */
  function LastDefinition(lines: seq<string>, key: string): (d: int)
    ensures -1 <= d < |lines|
    ensures d == -1 <==> LastValue(lines, key).None?
  {
    if lines == [] then -1
    else if Defines(lines[|lines| - 1], key) then |lines| - 1
    else LastDefinition(lines[..|lines| - 1], key)
  }

  lemma AppendedLineGives(lines: seq<string>, line: string, key: string, value: string, other: string)
    requires |lines| > 0 && ParseLine(line) == Some(Entry(key, value))
    ensures LastValue(Appended(lines, line), other) == if other == key then Some(value) else LastValue(lines, other)
  {
    hide ParseLine;
    var base := if lines[|lines| - 1] == "" then lines[..|lines| - 1] else lines;
    var lines' := base + [line, ""];
    EmptyLineDefinesNothing();
    assert lines'[..|base| + 1] == base + [line];
    assert (base + [line])[..|base|] == base;
  }

  lemma EmptyLineDefinesNothing()
    ensures ParseLine("") == None
  {
  }

  lemma {:induction false} BodyHasNoTerminator(line: string, tail: string)
    requires SingleLine(line)
    requires tail == "" || IsTerminator(tail[0])
    ensures LineEnd(line + tail) == |line|
  {
    if line == "" {
      assert line + tail == tail;
    } else {
      assert (line + tail)[1..] == line[1..] + tail;
      BodyHasNoTerminator(line[1..], tail);
    }
  }

  lemma {:induction false} LineEndIsATerminator(line: string)
    ensures LineEnd(line) < |line| ==> IsTerminator(line[LineEnd(line)])
  {
    if line != "" && !IsTerminator(line[0]) {
      LineEndIsATerminator(line[1..]);
    }
  }

  lemma WrittenLineHasNoTerminator(key: string, value: string)
    requires PlainKey(key) && SingleLine(value)
    ensures SingleLine(key + "=" + value)
  {
    hide IsKeyChar, IsTerminator;
    var line := key + "=" + value;
    assert !IsTerminator('=') by { EqualSignEndsNothing(); }
    forall i | 0 <= i < |line| ensures !IsTerminator(line[i]) {
      if i < |key| {
        KeyCharIsOrdinary(key[i]);
      }
    }
  }

  lemma EqualSignEndsNothing()
    ensures !IsTerminator('=')
  {
  }

  lemma FeedIsATerminator()
    ensures IsTerminator('\n')
  {
  }

  /** A replaced line that still defines the same key, or still nothing. */
  lemma {:induction false} ReplacedLineGives(lines: seq<string>, d: nat, line: string, other: string)
    requires d < |lines|
    requires match ParseLine(line)
             case Some(now) => Defines(lines[d], now.key)
             case None => ParseLine(lines[d]).None?
    ensures LastValue(lines[d := line], other)
         == if Defines(line, other) && LastDefinition(lines, other) == d then Some(ParseLine(line).value.value) else LastValue(lines, other)
  {
    hide ParseLine;
    var n := |lines| - 1;
    assert lines[d := line][n] == if d == n then line else lines[n];
    if d < n {
      assert lines[d := line][..n] == lines[..n][d := line];
      if !Defines(lines[n], other) {
        ReplacedLineGives(lines[..n], d, line, other);
      }
    } else {
      assert lines[d := line][..n] == lines[..n];
    }
  }

  lemma {:induction false} LastDefinitionGives(lines: seq<string>, key: string)
    ensures LastDefinition(lines, key) >= 0 ==>
              Defines(lines[LastDefinition(lines, key)], key)
              && LastValue(lines, key) == Some(ParseLine(lines[LastDefinition(lines, key)]).value.value)
  {
    hide ParseLine;
    if lines != [] {
      LastDefinitionGives(lines[..|lines| - 1], key);
    }
  }

  /** Something a caller can look up before writing: no line bears the key for the pattern; or the one that does is,
      but for white space, a whole line of the reader, and the last to define the key. */
  predicate WritesTheLineThatCounts(contents: string, key: string) {
    var lines := Split(contents, '\n');
    match SiteOf(contents, key)
    case None => true
    case Some(at) => IsWholeLine(lines[at.line], at.column) && at.line == LastDefinition(lines, key)
  }

  predicate IsWholeLine(was: string, column: nat)
    requires column <= |was|
  {
    AllSpace(was[..column]) && AllSpace(RestFrom(was, column))
  }

  /** The line about to be changed defines nothing that counts, or would read the same. */
  predicate LeavesTheReading(contents: string, key: string, value: string) {
    var lines := Split(contents, '\n');
    match SiteOf(contents, key)
    case None => false
    case Some(at) =>
      var was := lines[at.line];
      match ParseLine(was)
      case None => true
      case Some(entry) =>
        LastDefinition(lines, entry.key) != at.line || ParseLine(WithBody(was, at.column, key + "=" + value)) == Some(entry)
  }

  lemma PrefixParts(here: string, key: string)
    requires PlainKey(key) && StartsWith(here, key + "=")
    ensures |key| + 1 <= LineEnd(here)
    ensures here[..LineEnd(here)] == key + "=" + here[|key| + 1..LineEnd(here)]
  {
    hide LineEnd, IsKeyChar;
    WrittenLineHasNoTerminator(key, "");
    assert key + "=" + "" == key + "=";
    BodyGoesOn(here, key + "=");
    assert here[..|key| + 1] == key + "=";
  }

  lemma {:induction false} BodyGoesOn(s: string, head: string)
    requires SingleLine(head) && StartsWith(s, head)
    ensures |head| <= LineEnd(s)
  {
    if head != "" {
      assert s[0] == head[0];
      BodyGoesOn(s[1..], head[1..]);
    }
  }

  /** The line at the site: what stands before, `key=body`, and what stays. */
  lemma LineAtSite(contents: string, key: string) returns (body: string)
    requires PlainKey(key) && SiteOf(contents, key).Some?
    ensures var (was, at) := (Split(contents, '\n')[SiteOf(contents, key).value.line], SiteOf(contents, key).value.column);
            && was == was[..at] + (key + "=" + body) + RestFrom(was, at)
            && (at == 0 || IsSpace(was[at - 1]))
            && (RestFrom(was, at) == "" || IsSpace(RestFrom(was, at)[0]))
  {
    hide SiteOf, Split, LineEnd, StartsWith, IsSpace, IsTerminator, PlainKey;
    var (was, at) := (Split(contents, '\n')[SiteOf(contents, key).value.line], SiteOf(contents, key).value.column);
    SiteBearsTheKey(contents, key);
    var here := was[at..];
    PrefixParts(here, key);
    body := here[|key| + 1..LineEnd(here)];
    LineEndIsATerminator(here);
    TerminatorIsSpace(if at > 0 then was[at - 1] else ' ');
    TerminatorIsSpace(if LineEnd(here) < |here| then here[LineEnd(here)] else ' ');
    assert was == was[..at] + here;
    assert here == here[..LineEnd(here)] + RestFrom(was, at);
    Reassociate(was[..at], here[..LineEnd(here)], RestFrom(was, at));
  }

  lemma Reassociate(a: string, b: string, c: string)
    ensures a + (b + c) == a + b + c
  {
  }

  lemma TerminatorIsSpace(c: char)
    ensures IsTerminator(c) ==> IsSpace(c)
  {
  }

  /** How the line at the site reads before and after. */
  lemma SiteReads(contents: string, key: string, value: string)
    requires PlainKey(key) && PlainValue(value) && SiteOf(contents, key).Some?
    ensures var at := SiteOf(contents, key).value;
            var was := Split(contents, '\n')[at.line];
            var now := WithBody(was, at.column, key + "=" + value);
            && (ParseLine(now).Some? <==> ParseLine(was).Some?)
            && (ParseLine(now).Some? ==> ParseLine(now).value.key == ParseLine(was).value.key)
            && (ParseLine(now) == Some(Entry(key, value)) <==> IsWholeLine(was, at.column))
            && (IsWholeLine(was, at.column) ==> Defines(was, key))
  {
    hide SiteOf, Split, RestFrom, ParseLine, PlainKey, PlainValue, IsSpace, AllSpace, HeadOf, Unquote, TrimEnd;
    var at := SiteOf(contents, key).value;
    var was := Split(contents, '\n')[at.line];
    var body := LineAtSite(contents, key);
    var (p, t) := (was[..at.column], RestFrom(was, at.column));
    LineReads(p, key, body, t);
    LineReads(p, key, value, t);
    assert at.column > 0 ==> p[|p| - 1] == was[at.column - 1];
    WholeLineIff(p, key, value, t);
  }

  /** What every key reads as after a write. */
  lemma UpsertGives(contents: string, key: string, value: string, other: string)
    requires PlainKey(key) && PlainValue(value)
    ensures var lines := Split(contents, '\n');
            LastValue(Split(Upsert(contents, key, value), '\n'), other)
            == match SiteOf(contents, key)
               case None => if other == key then Some(value) else LastValue(lines, other)
               case Some(at) =>
                 var now := WithBody(lines[at.line], at.column, key + "=" + value);
                 if Defines(now, other) && LastDefinition(lines, other) == at.line
                 then Some(ParseLine(now).value.value) else LastValue(lines, other)
  {
    hide Upsert, SiteOf, Split, Join, ParseLine, LastValue, LastDefinition, PlainKey, PlainValue, WithBody, Free;
    var (lines, line) := (Split(contents, '\n'), key + "=" + value);
    PlainValueHasNone(value);
    UpsertIsByLine(contents, key, value);
    WrittenLinesAreLines(contents, key, value);
    match SiteOf(contents, key) {
      case None =>
        SplitOfJoin(Appended(lines, line), '\n');
        WrittenLineReadsBack(key, value);
        AppendedLineGives(lines, line, key, value, other);
      case Some(at) =>
        var now := WithBody(lines[at.line], at.column, line);
        SplitOfJoin(lines[at.line := now], '\n');
        SiteReads(contents, key, value);
        ReplacedLineGives(lines, at.line, now, other);
    }
  }

  lemma WrittenLineReadsBack(key: string, value: string)
    requires PlainKey(key) && PlainValue(value)
    ensures ParseLine(key + "=" + value) == Some(Entry(key, value))
  {
    hide ParseLine, PlainKey, PlainValue;
    WholeLineIff("", key, value, "");
    assert "" + (key + "=" + value) + "" == key + "=" + value;
  }

  /** A value in quotes of either kind reads as what stands between them, whatever that is. */
  lemma QuotedValueReads(key: string, value: string, open: char, close: char)
    requires PlainKey(key) && IsQuote(open) && IsQuote(close)
    ensures ParseLine(key + "=" + [open] + value + [close]) == Some(Entry(key, value))
  {
    hide ParseLine, PlainKey, Unquote, Trim, Trimmed;
    var quoted := [open] + value + [close];
    var line := key + "=" + quoted;
    assert key + "=" + [open] + value + [close] == line;
    KeyIsOrdinary(key);
    PlainKeyIsNotEmpty(key);
    EqualSignAfterKey(key, quoted);
    QuotedLineIsTrimmed(key, quoted);
    QuotesComeOff(value, open, close);
    assert line[|key| + 1..] == quoted && line[..|key|] == key;
    LineIs(line, key, quoted);
  }

  lemma LineIs(line: string, key: string, written: string)
    requires Trim(line) == line && key != "" && key[0] != '#' && IndexOf(line, '=') == |key| < |line|
    requires line[..|key|] == key && line[|key| + 1..] == written
    ensures ParseLine(line) == Some(Entry(key, Unquote(written)))
  {
    hide Trim, Unquote, IndexOf;
    assert line[0] == line[..|key|][0];
  }

  lemma QuotedLineIsTrimmed(key: string, quoted: string)
    requires PlainKey(key) && quoted != "" && IsQuote(quoted[|quoted| - 1])
    ensures var line := key + "=" + quoted; Trim(line) == line
  {
    var line := key + "=" + quoted;
    KeyIsOrdinary(key);
    SpaceIsNoQuote(quoted[|quoted| - 1]);
    hide IsSpace;
    assert line[0] == key[0] && line[|line| - 1] == quoted[|quoted| - 1];
    TrimIsTrimmed(line);
  }

  /** One quote comes off each end. */
  lemma QuotesComeOff(value: string, open: char, close: char)
    requires IsQuote(open) && IsQuote(close)
    ensures Unquote([open] + value + [close]) == value
  {
    var quoted := [open] + value + [close];
    assert quoted[1..] == value + [close] && (value + [close])[..|value|] == value;
  }

  lemma EqualSignAfterKey(key: string, rest: string)
    requires '=' !in key
    ensures IndexOf(key + "=" + rest, '=') == |key|
  {
    IndexOfFirst(key, '=', rest);
  }

  /** Blank lines and comments, indented or not, define nothing, whatever they hold. */
  lemma CommentDefinesNothing(indent: string, comment: string)
    requires AllSpace(indent)
    ensures ParseLine(indent) == None && ParseLine(indent + "#" + comment) == None
  {
    var line := "#" + comment;
    assert indent + "#" + comment == indent + line;
    HashIsNoSpace();
    TrimStartStopsAt(indent, line);
    TrimStartOfSpace(indent);
    assert TrimStart(indent + line) == line;
    var rest := comment;
    TrimEndStopsAt("#", comment);
    assert Trim(indent + line)[0] == '#';
  }

  lemma HashIsNoSpace()
    ensures !IsSpace('#')
  {
  }

  lemma WrittenLinesAreLines(contents: string, key: string, value: string)
    requires PlainKey(key) && '\n' !in value
    ensures var (lines, line) := (Split(contents, '\n'), key + "=" + value);
            match SiteOf(contents, key)
            case None => Free(Appended(lines, line), '\n')
            case Some(at) => Free(lines[at.line := WithBody(lines[at.line], at.column, line)], '\n')
  {
    hide SiteOf, Split, LineEnd, IsKeyChar, Join;
    KeyIsOrdinary(key);
    JoinOfSplit(contents, '\n');
  }

  /** Writing a key and reading the file, for every file: the old reading with that key changed, exactly when the line
      written is the one that counts, or the value was there already and the changed line reads on as before. */
  lemma UpsertIsALensIff(contents: string, key: string, value: string)
    requires PlainKey(key) && PlainValue(value)
    ensures var (env, env') := (Parse(contents), Parse(Upsert(contents, key, value)));
            env' == env[key := value]
            <==> WritesTheLineThatCounts(contents, key)
                 || (key in env && env[key] == value && LeavesTheReading(contents, key, value))
    ensures WritesTheLineThatCounts(contents, key) || LeavesTheReading(contents, key, value) ==>
              Parse(Upsert(contents, key, value))
              == if WritesTheLineThatCounts(contents, key) then Parse(contents)[key := value] else Parse(contents)
  {
    hide ParseLines, ParseLine, LastValue, PlainValue, PlainKey, LastDefinition, Upsert, SiteOf, Split, IsWholeLine, WithBody;
    var (lines, lines') := (Split(contents, '\n'), Split(Upsert(contents, key, value), '\n'));
    var (env, env') := (ParseLines(lines), ParseLines(lines'));
    forall other ensures LastValue(lines, other) == (if other in env then Some(env[other]) else None)
                      && LastValue(lines', other) == (if other in env' then Some(env'[other]) else None) {
      ParseKeepsLastValues(lines, other);
      ParseKeepsLastValues(lines', other);
    }
    forall other { UpsertGives(contents, key, value, other); }
    match SiteOf(contents, key) {
      case None => assert env' == env[key := value];
      case Some(at) =>
        SiteReads(contents, key, value);
        var (was, now) := (ParseLine(lines[at.line]), ParseLine(WithBody(lines[at.line], at.column, key + "=" + value)));
        var counts := was.Some? && LastDefinition(lines, was.value.key) == at.line;
        if was.Some? {
          LastDefinitionGives(lines, was.value.key);
        }
        assert env' == if counts then env[was.value.key := now.value.value] else env;
        OneLineLens(env, env', key, value, was, now, counts);
    }
  }

  /** A write that changes what one line defines, seen from the map. */
  lemma OneLineLens(env: EnvMap, env': EnvMap, key: string, value: string, was: Option<Entry>, now: Option<Entry>, counts: bool)
    requires (was.Some? <==> now.Some?) && (was.Some? ==> now.value.key == was.value.key)
    requires counts ==> was.Some? && was.value.key in env && env[was.value.key] == was.value.value
    requires env' == if counts then env[was.value.key := now.value.value] else env
    ensures env' == env[key := value]
       <==> (counts && now == Some(Entry(key, value))) || (key in env && env[key] == value && (!counts || now == was))
  {
    var target := env[key := value];
    assert target[key] == value;
    if counts {
      var k := was.value.key;
      assert env'[k] == now.value.value && target[k] == (if k == key then value else env[k]);
      assert k != key && key in env ==> env'[key] == env[key];
      assert now == was ==> env' == env;
      assert k != key && key !in env ==> key !in env';
      assert key in env && env[key] == value ==> target == env;
    }
  }

  lemma PlainValueHasNone(value: string)
    requires PlainValue(value)
    ensures '$' !in value && '\n' !in value
  {
  }

  /** A prefix without terminators that starts before a terminator ends before it. */
  lemma CrossesNoTerminator(s: string, k: nat, prefix: string, m: nat)
    requires SingleLine(prefix) && k <= m < |s| && IsTerminator(s[m]) && StartsWith(s[k..], prefix)
    ensures k + |prefix| <= m
  {
    forall j | k <= j < k + |prefix| ensures !IsTerminator(s[j]) {
      assert s[k..][j - k] == prefix[j - k];
    }
  }

  /** Texts that agree up to a terminator before i, or are both fresh there, have the same line starts before i. */
  lemma SameBeginningsBefore(s: string, s': string, prefix: string, i: nat, k: nat)
    requires SingleLine(prefix) && k < i <= |s'| && i - 1 <= |s|
    requires IsTerminator(s'[i - 1]) && s'[..i - 1] == s[..i - 1]
    requires Begins(s', k, prefix, true)
    ensures Begins(s, k, prefix, true)
  {
    hide IsTerminator;
    CrossesNoTerminator(s', k, prefix, i - 1);
    assert forall j :: 0 <= j < |prefix| ==> s'[k..][j] == prefix[j] && s[..i - 1][k + j] == s'[..i - 1][k + j];
    assert s[k..][..|prefix|] == prefix;
    if k > 0 {
      assert s[k - 1] == s[..i - 1][k - 1] && s'[k - 1] == s'[..i - 1][k - 1];
    }
  }

  /** After a write the pattern finds the line that was written. */
  lemma WrittenLineIsFound(contents: string, key: string, value: string, i: nat, sep: string, rest: string)
    requires PlainKey(key) && i <= |contents| + |sep|
    requires var s' := (contents + sep)[..i] + (key + "=" + value) + rest;
             && (i > 0 ==> IsTerminator(s'[i - 1]))
             && (sep == "" || i == |contents| + 1)
    requires forall k: nat :: k < i ==> !Begins(contents, k, key + "=", true)
    ensures FindLine((contents + sep)[..i] + (key + "=" + value) + rest, key + "=", true) == Some(i)
  {
    hide IsTerminator, FindLine, PlainKey;
    var (s', prefix) := ((contents + sep)[..i] + (key + "=" + value) + rest, key + "=");
    WrittenLineHasNoTerminator(key, "");
    assert key + "=" + "" == prefix;
    assert s'[i..] == prefix + (value + rest);
    assert Begins(s', i, prefix, true);
    forall k: nat | k < i ensures !Begins(s', k, prefix, true) {
      if Begins(s', k, prefix, true) {
        assert s'[..i - 1] == contents[..i - 1];
        SameBeginningsBefore(contents, s', prefix, i, k);
      }
    }
    FirstBeginningIsFound(s', prefix, i);
  }

  /** Writing the same value twice is writing it once, in every file. */
  lemma UpsertIsIdempotent(contents: string, key: string, value: string)
    requires PlainKey(key) && SingleLine(value) && '$' !in value
    ensures Upsert(Upsert(contents, key, value), key, value) == Upsert(contents, key, value)
  {
    hide SingleLine, PlainKey, FindLine, LineEnd, Upsert, Begins, IsTerminator;
    var line := key + "=" + value;
    var once := Upsert(contents, key, value);
    FindLineIsTheFirst(contents, key + "=", true);
    WrittenLineHasNoTerminator(key, value);
    match FindLine(contents, key + "=", true) {
      case Some(i) =>
        UpsertFound(contents, key, value, i);
        var rest := contents[i + LineEnd(contents[i..])..];
        LineEndIsATerminator(contents[i..]);
        BeginsAfterTerminator(contents, i, key + "=");
        assert contents + "" == contents;
        assert i > 0 ==> (contents[..i] + line + rest)[i - 1] == contents[i - 1];
        WrittenLineIsFound(contents, key, value, i, "", rest);
        RewrittenOnce(contents[..i], key, value, rest);
      case None =>
        UpsertMissing(contents, key, value);
        var sep := if EndsInFeed(contents) then "" else "\n";
        var i := |contents| + |sep|;
        FeedIsATerminator();
        assert (contents + sep)[..i] == contents + sep;
        WrittenLineIsFound(contents, key, value, i, sep, "\n");
        RewrittenOnce(contents + sep, key, value, "\n");
    }
  }

  lemma BeginsAfterTerminator(s: string, i: nat, prefix: string)
    requires Begins(s, i, prefix, true)
    ensures i <= |s| && (i > 0 ==> IsTerminator(s[i - 1]))
  {
  }

  /** Writing the value of a line that is found again, whose body ends where it ended. */
  lemma RewrittenOnce(before: string, key: string, value: string, rest: string)
    requires PlainKey(key) && SingleLine(value) && '$' !in value && (rest == "" || IsTerminator(rest[0]))
    requires FindLine(before + (key + "=" + value) + rest, key + "=", true) == Some(|before|)
    ensures Upsert(before + (key + "=" + value) + rest, key, value) == before + (key + "=" + value) + rest
  {
    hide SingleLine, PlainKey, FindLine, LineEnd, Upsert, IsTerminator;
    var line := key + "=" + value;
    assert '$' !in line by { KeyIsOrdinary(key); }
    var s := before + line + rest;
    WrittenLineHasNoTerminator(key, value);
    BodyHasNoTerminator(line, rest);
    UpsertFound(s, key, value, |before|);
    Spliced(before, line, rest, |line|);
    assert line[|line|..] + rest == rest;
  }

  /** At most one line of the file defines the key. */
  predicate DefinedAtMostOnce(contents: string, key: string) {
    var lines := Split(contents, '\n');
    forall j, k :: 0 <= j < k < |lines| ==> !(Defines(lines[j], key) && Defines(lines[k], key))
  }

  lemma {:induction false} DefinitionIsTheLast(lines: seq<string>, d: nat, key: string)
    requires d < |lines| && Defines(lines[d], key)
    requires forall k :: d < k < |lines| ==> !Defines(lines[k], key)
    ensures LastDefinition(lines, key) == d
  {
    hide Defines;
    if d < |lines| - 1 {
      DefinitionIsTheLast(lines[..|lines| - 1], d, key);
    }
  }

  /** What the pattern matches, if anything, is a whole line of the reader. */
  predicate MatchesAWholeLine(contents: string, key: string) {
    var lines := Split(contents, '\n');
    match SiteOf(contents, key)
    case None => true
    case Some(at) => IsWholeLine(lines[at.line], at.column)
  }

  /** A key defined at most once is written where it counts exactly if the pattern matches a whole line, or the value
      was there and the changed line reads on as before. */
  lemma DefinedOnceIsALens(contents: string, key: string, value: string)
    requires PlainKey(key) && PlainValue(value) && DefinedAtMostOnce(contents, key)
    ensures Parse(Upsert(contents, key, value)) == Parse(contents)[key := value]
       <==> MatchesAWholeLine(contents, key)
            || (key in Parse(contents) && Parse(contents)[key] == value && LeavesTheReading(contents, key, value))
  {
    hide Parse, Upsert, PlainValue, PlainKey, ParseLine, IsWholeLine, SiteOf, Split, LeavesTheReading, WithBody;
    var lines := Split(contents, '\n');
    UpsertIsALensIff(contents, key, value);
    match SiteOf(contents, key) {
      case None =>
      case Some(at) =>
        SiteReads(contents, key, value);
        if IsWholeLine(lines[at.line], at.column) {
          DefinitionIsTheLast(lines, at.line, key);
        }
    }
  }

  /** A key defined twice is not written where it counts: the first line changes, the second still rules. */
  lemma DefinedTwiceIsNoLens(key: string, first: string, second: string, value: string)
    requires PlainKey(key) && PlainValue(first) && PlainValue(second) && PlainValue(value) && value != second
    ensures var contents := key + "=" + first + "\n" + (key + "=" + second);
            Parse(contents) == Parse(Upsert(contents, key, value)) == map[key := second]
  {
    hide PlainKey, PlainValue, IsTerminator, Upsert, ParseLine, SiteOf, FindLine, IsWholeLine, WithBody;
    var a, b := key + "=" + first, key + "=" + second;
    var (lines, contents) := ([a, b], a + "\n" + b);
    assert lines[1..] == [b];
    KeyIsOrdinary(key);
    PlainValueHasNone(first);
    PlainValueHasNone(second);
    SplitOfJoin(lines, '\n');
    assert Join(lines, '\n') == contents;
    WrittenLineReadsBack(key, first);
    WrittenLineReadsBack(key, second);
    assert lines[..1] == [a] && [a][..0] == [];
    assert ParseLines([]) == map[];
    assert ParseLines([a]) == ParseLines([])[key := first];
    assert ParseLines(lines) == ParseLines([a])[key := second];
    assert contents[0..] == contents && contents[..|key| + 1] == key + "=";
    FirstBeginningIsFound(contents, key + "=", 0);
    assert SiteOf(contents, key).value.line == 0;
    UpsertIsALensIff(contents, key, value);
  }

  lemma {:induction false} SkipBody(body: string, rest: string, prefix: string, atStart: bool)
    requires SingleLine(body) && SingleLine(prefix) && prefix != "" && StartsWith(rest, prefix)
    requires atStart ==> !StartsWith(body + "\r" + rest, prefix)
    ensures FindLine(body + "\r" + rest, prefix, atStart) == Some(|body| + 1)
  {
    var s := body + "\r" + rest;
    if body == "" {
      assert s[0] == '\r' && s[1..] == rest;
      assert FindLine(rest, prefix, true) == Some(0);
    } else {
      assert s[1..] == body[1..] + "\r" + rest;
      SkipBody(body[1..], rest, prefix, false);
    }
  }

  /** A carriage return inside a line: the reader sees one line, the pattern two, and the write lands in the value
      of another key. */
  lemma LoneReturnIsNoLens(outer: string, before: string, key: string, first: string, value: string)
    requires PlainKey(outer) && PlainKey(key) && outer != key && SingleLine(before) && SingleLine(first) && '$' !in value
    requires PlainValue(before + "\r" + (key + "=" + first)) && PlainValue(before + "\r" + (key + "=" + value))
    ensures var contents := outer + "=" + (before + "\r" + (key + "=" + first));
            && Parse(contents) == map[outer := before + "\r" + (key + "=" + first)]
            && Parse(Upsert(contents, key, value)) == map[outer := before + "\r" + (key + "=" + value)]
            && !WritesTheLineThatCounts(contents, key)
  {
    hide PlainKey, PlainValue, ParseLine, LineEnd, StartsWith, IsTerminator, IsSpace, WritesTheLineThatCounts, FindLine, Split;
    var body, inner := outer + "=" + before, key + "=" + first;
    var contents := outer + "=" + (before + "\r" + inner);
    assert contents == body + "\r" + inner;
    OneEntry(outer, before + "\r" + inner);
    OneEntry(outer, before + "\r" + (key + "=" + value));
    WrittenLineHasNoTerminator(outer, before);
    WrittenLineHasNoTerminator(key, first);
    WrittenLineHasNoTerminator(key, "");
    assert key + "=" + "" == key + "=";
    OnlyItsKeyStarts(outer, before + "\r" + inner, key);
    assert StartsWith(inner, key + "=") by { PrefixStarts(key + "=", first); }
    SkipBody(body, inner, key + "=", true);
    var i := |body| + 1;
    UpsertFound(contents, key, value, i);
    assert contents[i..] == inner && contents[..i] == body + "\r";
    BodyHasNoTerminator(inner, "");
    assert inner + "" == inner;
    assert contents[i + |inner|..] == "";
    assert body + "\r" + (key + "=" + value) + "" == outer + "=" + (before + "\r" + (key + "=" + value));
    KeyIsOrdinary(outer);
    PlainValueHasNone(before + "\r" + inner);
    assert contents[0] == outer[0] by { PlainKeyIsNotEmpty(outer); }
    FoundInside(contents, key, i);
  }

  lemma OneLineFile(contents: string)
    requires '\n' !in contents
    ensures Split(contents, '\n') == [contents]
  {
  }

  lemma FoundInside(contents: string, key: string, i: nat)
    requires '\n' !in contents && FindLine(contents, key + "=", true) == Some(i)
    requires 0 < i <= |contents| && !IsSpace(contents[0])
    ensures !WritesTheLineThatCounts(contents, key)
  {
    hide Split, FindLine, IsSpace, LastDefinition;
    OneLineFile(contents);
    var at := SiteOf(contents, key).value;
    assert Offset([contents], 0) == 0 && at.line == 0 && at.column == i;
    assert contents[..i][0] == contents[0];
  }

  lemma PrefixStarts(a: string, b: string)
    ensures StartsWith(a + b, a)
  {
  }

  lemma OnlyItsKeyStarts(outer: string, rest: string, key: string)
    requires PlainKey(outer) && PlainKey(key)
    ensures StartsWith(outer + "=" + rest, key + "=") ==> outer == key
  {
    var (s, prefix) := (outer + "=" + rest, key + "=");
    KeyIsOrdinary(outer);
    KeyIsOrdinary(key);
    IndexOfFirst(outer, '=', rest);
    if StartsWith(s, prefix) {
      assert s == key + "=" + s[|prefix|..];
      IndexOfFirst(key, '=', s[|prefix|..]);
      assert s[..|key|] == key && s[..|outer|] == outer;
    }
  }

  lemma OneEntry(key: string, value: string)
    requires PlainKey(key) && PlainValue(value)
    ensures Parse(key + "=" + value) == map[key := value]
  {
    hide ParseLine, Split, PlainKey, PlainValue;
    var line := key + "=" + value;
    PlainValueHasNone(value);
    assert '\n' !in line by { KeyIsOrdinary(key); }
    SplitOfJoin([line], '\n');
    assert Join([line], '\n') == line;
    WrittenLineReadsBack(key, value);
    assert [line][..0] == [];
    assert ParseLines([]) == map[];
  }

  // ---- Keys the script makes up ---------------------------------------------------------------------

  /** The environment in hand and the file text: a missing or empty key is generated and written to both. They stay in
      step exactly as the lens says. */
  method EnsureKey(contents: string, env: EnvMap, key: string, generated: string)
    returns (contents': string, env': EnvMap, value: string, created: bool)
    requires PlainKey(key)
    ensures created <==> !(key in env && env[key] != "")
    ensures key in env' && env'[key] == value && env' - {key} == env - {key}
    ensures !created ==> env' == env && contents' == contents
    ensures created ==> value == generated && contents' == Upsert(contents, key, generated)
    ensures created && env == Parse(contents) && PlainValue(generated) ==>
              (env' == Parse(contents')
               <==> WritesTheLineThatCounts(contents, key)
                    || (key in env && env[key] == generated && LeavesTheReading(contents, key, generated)))
  {
    hide Parse, Upsert, PlainValue, WritesTheLineThatCounts, LeavesTheReading, PlainKey;
    if key in env && env[key] != "" {
      return contents, env, env[key], false;
    }
    contents', env', value, created := Upsert(contents, key, generated), env[key := generated], generated, true;
    if PlainValue(generated) {
      UpsertIsALensIff(contents, key, generated);
    }
  }
}
