/** The consent page's scope catalogue (the Python service provider): curated entries, enriched by the tool
    server, plus the terms; and what it takes for a grant to be signed. */
module ScopeCatalogue {
  import opened Common
  import opened Lists
  import Text

  const ACCEPT_TERMS := "accept-terms"

  datatype CuratedEntry = CuratedEntry(scope: string, caption: string, description: Option<string>, required: Option<bool>)

  /** A JSON field: missing, null or text. */
  datatype Field = Missing | Null | Given(text: string)

  datatype ToolInfo = ToolInfo(requiredScope: string, caption: Field, description: Field, toolDescription: Field)

  datatype ScopeOption = ScopeOption(scope: string, caption: string, description: Option<string>, required: Option<bool>)

  // ---- Labels ------------------------------------------------------------------------------

  predicate IsSeparator(c: char) {
    c == ':' || c == '_' || c == '-'
  }

  /** White space as Python's `\s` and `str.strip` see it. */
  predicate IsSpace(c: char) {
    || '\t' <= c <= '\r' || '\U{001C}' <= c <= ' ' || c == '\U{0085}' || c == '\U{00A0}' || c == '\U{1680}'
    || '\U{2000}' <= c <= '\U{200A}' || c == '\U{2028}' || c == '\U{2029}' || c == '\U{202F}' || c == '\U{205F}' || c == '\U{3000}'
  }

  function Strip(s: string): string {
    if s != "" && IsSpace(s[0]) then Strip(s[1..])
    else if s != "" && IsSpace(s[|s| - 1]) then Strip(s[..|s| - 1])
    else s
  }

  function HumanizeScope(scope: string): string {
    Strip(Text.ReplaceRuns(Text.ReplaceRuns(scope, IsSeparator, ' ', false), IsSpace, ' ', false))
  }

  lemma {:induction false} StripTakesAPart(s: string) returns (i: nat, j: nat)
    ensures i <= j <= |s| && Strip(s) == s[i..j]
    ensures i < j ==> !IsSpace(s[i]) && !IsSpace(s[j - 1])
  {
    hide IsSpace;
    if s != "" && IsSpace(s[0]) {
      i, j := StripTakesAPart(s[1..]);
      assert s[1..][i..j] == s[i + 1..j + 1];
      i, j := i + 1, j + 1;
    } else if s != "" && IsSpace(s[|s| - 1]) {
      i, j := StripTakesAPart(s[..|s| - 1]);
      assert s[..|s| - 1][i..j] == s[i..j];
    } else {
      i, j := 0, |s|;
      assert s[..] == s;
    }
  }

  /** A made-up label is words apart by single blanks: no separator, no other white space, none at the ends. */
  lemma HumanizedIsWords(scope: string)
    ensures var words := HumanizeScope(scope);
            && (forall i :: 0 <= i < |words| ==> !IsSeparator(words[i]) && (IsSpace(words[i]) ==> words[i] == ' '))
            && (forall i :: 0 <= i < |words| - 1 && words[i] == ' ' ==> words[i + 1] != ' ')
            && (words != "" ==> !IsSpace(words[0]) && !IsSpace(words[|words| - 1]))
  {
    hide IsSpace, Strip, Text.ReplaceRuns;
    var once := Text.ReplaceRuns(scope, IsSeparator, ' ', false);
    var twice := Text.ReplaceRuns(once, IsSpace, ' ', false);
    Text.ReplaceRunsReplaces(scope, IsSeparator, ' ', false);
    Text.ReplaceRunsReplaces(once, IsSpace, ' ', false);
    BlankIsSpace();
    assert forall i :: 0 <= i < |twice| ==> !IsSeparator(twice[i]);
    var i, j := StripTakesAPart(twice);
    assert forall k :: 0 <= k < j - i ==> twice[i..j][k] == twice[i + k];
  }

  predicate IsGap(c: char) {
    IsSeparator(c) || IsSpace(c)
  }

  lemma {:induction false} StripKeepsWords(s: string)
    ensures Text.Words(Strip(s), IsGap) == Text.Words(s, IsGap)
  {
    hide IsSpace;
    if s != "" && IsSpace(s[0]) {
      StripKeepsWords(s[1..]);
    } else if s != "" && IsSpace(s[|s| - 1]) {
      var n := |s| - 1;
      assert s == s[..n] + [s[n]];
      Text.NoWordAtTheEnd(s[..n], s[n], IsGap);
      StripKeepsWords(s[..n]);
    }
  }

  /** It is the words of the scope, all its characters but separators and white space in order. */
  lemma HumanizedIsItsWords(scope: string)
    ensures HumanizeScope(scope) == Text.Joined(Text.Words(scope, IsGap), ' ')
  {
    hide IsSpace, Strip, Text.ReplaceRuns, Text.Words, Text.Joined;
    var once := Text.ReplaceRuns(scope, IsSeparator, ' ', false);
    BlankIsSpace();
    Text.ReplaceRunsKeepsWords(scope, IsSeparator, ' ', false, IsGap);
    Text.ReplaceRunsKeepsWords(once, IsSpace, ' ', false, IsGap);
    StripKeepsWords(Text.ReplaceRuns(once, IsSpace, ' ', false));
    HumanizedIsWords(scope);
    Text.WordsAreJoined(HumanizeScope(scope), IsGap, ' ');
  }

  lemma BlankIsSpace()
    ensures IsSpace(' ')
  {
  }

  // ---- The catalogue -------------------------------------------------------------------------

  /** A Python dict: scopes in insertion order, each once. */
  type Dict = seq<ScopeOption>

  function IndexOfScope(d: Dict, scope: string): (i: nat)
    ensures i <= |d| && (i < |d| ==> d[i].scope == scope)
    ensures forall j :: 0 <= j < i ==> d[j].scope != scope
  {
    if d == [] || d[0].scope == scope then 0 else 1 + IndexOfScope(d[1..], scope)
  }

  function Lookup(d: Dict, scope: string): Option<ScopeOption> {
    var i := IndexOfScope(d, scope);
    if i < |d| then Some(d[i]) else None
  }

  /** Assigning to a key that is there keeps its place. */
  function Put(d: Dict, option: ScopeOption): Dict {
    var i := IndexOfScope(d, option.scope);
    if i < |d| then d[i := option] else d + [option]
  }

  function FromEntry(e: CuratedEntry): ScopeOption {
    ScopeOption(e.scope, e.caption, e.description, e.required)
  }

  function OrElse(field: Field, other: Option<string>): Option<string> {
    match field
    case Missing => other
    case Null => None
    case Given(text) => Some(text)
  }

  /** A tool overrides label and description, never `required`. */
  function FromTool(existing: Option<ScopeOption>, tool: ToolInfo): ScopeOption {
    var caption := OrElse(tool.caption, if existing.Some? then Some(existing.value.caption) else None);
    var description := OrElse(tool.description, OrElse(tool.toolDescription, if existing.Some? then existing.value.description else None));
    ScopeOption(tool.requiredScope, if caption.Some? then caption.value else "", description,
                if existing.Some? then existing.value.required else None)
  }

  function CuratedDict(curated: seq<CuratedEntry>): Dict {
    if curated == [] then []
    else Put(CuratedDict(curated[..|curated| - 1]), FromEntry(curated[|curated| - 1]))
  }

  function WithTools(d: Dict, tools: seq<ToolInfo>): Dict {
    if tools == [] then d
    else
      var before, tool := WithTools(d, tools[..|tools| - 1]), tools[|tools| - 1];
      if tool.requiredScope == "" then before
      else Put(before, FromTool(Lookup(before, tool.requiredScope), tool))
  }

  function Labelled(option: ScopeOption): ScopeOption {
    if option.caption != "" then option else option.(caption := HumanizeScope(option.scope))
  }

  const TERMS := ScopeOption(ACCEPT_TERMS, "Accept the terms and conditions", None, Some(true))

  function Listed(tools: Option<seq<ToolInfo>>): seq<ToolInfo> {
    if tools.Some? then tools.value else []
  }

  /** `tools` is what the tool server listed, if it answered. */
  function ResolveConsentScopes(curated: seq<CuratedEntry>, tools: Option<seq<ToolInfo>>): (options: seq<ScopeOption>)
    ensures |options| > 0
  {
    var d := WithTools(CuratedDict(curated), Listed(tools));
    seq(|d|, i requires 0 <= i < |d| => Labelled(d[i])) + [TERMS]
  }

  method ResolveByLoops(curated: seq<CuratedEntry>, tools: Option<seq<ToolInfo>>) returns (options: seq<ScopeOption>)
    ensures options == ResolveConsentScopes(curated, tools)
  {
    hide Put, FromTool, Labelled;
    var resolved: Dict := [];
    for i := 0 to |curated|
      invariant resolved == CuratedDict(curated[..i])
    {
      assert curated[..i + 1][..i] == curated[..i];
      resolved := Put(resolved, FromEntry(curated[i]));
    }
    assert curated[..|curated|] == curated;
    var listed := Listed(tools);
    ghost var base := resolved;
    for i := 0 to |listed|
      invariant resolved == WithTools(base, listed[..i])
    {
      assert listed[..i + 1][..i] == listed[..i];
      if listed[i].requiredScope != "" {
        resolved := Put(resolved, FromTool(Lookup(resolved, listed[i].requiredScope), listed[i]));
      }
    }
    assert listed[..|listed|] == listed;
    options := seq(|resolved|, i requires 0 <= i < |resolved| => Labelled(resolved[i]));
    options := options + [TERMS];
  }

  // ---- What is in it, in what order ---------------------------------------------------------------

  /** The scopes as the sources name them, tools without a scope left out. */
  function Named(curated: seq<CuratedEntry>, tools: seq<ToolInfo>): seq<string> {
    if tools != [] then
      Named(curated, tools[..|tools| - 1]) + (if tools[|tools| - 1].requiredScope == "" then [] else [tools[|tools| - 1].requiredScope])
    else seq(|curated|, i requires 0 <= i < |curated| => curated[i].scope)
  }

  /** Each name once, in the order in which the names were first seen. */
  ghost predicate IsFirstSeen(d: Dict, names: seq<string>) {
    && (forall i :: 0 <= i < |d| ==> d[i].scope in names)
    && (forall k :: 0 <= k < |names| ==> IndexOfScope(d, names[k]) < |d|)
    && (forall i, j :: 0 <= i < j < |d| ==> IndexOf(names, d[i].scope) < IndexOf(names, d[j].scope))
  }

  lemma IndexOfScopeAppends(d: Dict, option: ScopeOption, scope: string)
    ensures IndexOfScope(d + [option], scope)
         == if IndexOfScope(d, scope) < |d| then IndexOfScope(d, scope) else if option.scope == scope then |d| else |d| + 1
  {
    var d' := d + [option];
    var i := IndexOfScope(d, scope);
    assert forall j :: 0 <= j < |d| ==> d'[j] == d[j];
    assert d'[|d|] == option;
  }

  lemma IndexOfAppends(names: seq<string>, last: string, name: string)
    ensures IndexOf(names + [last], name)
         == if IndexOf(names, name) < |names| then IndexOf(names, name) else if last == name then |names| else |names| + 1
  {
    var names' := names + [last];
    var i := IndexOf(names, name);
    assert forall j :: 0 <= j < |names| ==> names'[j] == names[j];
    assert names'[|names|] == last;
  }

  lemma SeenBefore(d: Dict, names: seq<string>, last: string, i: nat)
    requires IsFirstSeen(d, names) && i < |d|
    ensures IndexOf(names + [last], d[i].scope) == IndexOf(names, d[i].scope) < |names|
  {
    hide IndexOf, IndexOfScope;
    IndexOfAppends(names, last, d[i].scope);
    var k :| 0 <= k < |names| && names[k] == d[i].scope;
  }

  lemma SeenNow(d: Dict, names: seq<string>, last: string)
    requires IsFirstSeen(d, names) && IndexOfScope(d, last) == |d|
    ensures IndexOf(names + [last], last) == |names|
  {
    hide IndexOf, IndexOfScope;
    IndexOfAppends(names, last, last);
    assert forall k :: 0 <= k < |names| ==> IndexOfScope(d, names[k]) < |d|;
  }

  lemma AddedKeepsFirstSeen(d: Dict, names: seq<string>, option: ScopeOption)
    requires IsFirstSeen(d, names) && IndexOfScope(d, option.scope) == |d|
    ensures IsFirstSeen(d + [option], names + [option.scope])
  {
    hide IndexOfScope, IndexOf;
    var (d', names') := (d + [option], names + [option.scope]);
    SeenNow(d, names, option.scope);
    forall i, j | 0 <= i < j < |d'| ensures IndexOf(names', d'[i].scope) < IndexOf(names', d'[j].scope) {
      SeenBefore(d, names, option.scope, i);
      if j < |d| {
        SeenBefore(d, names, option.scope, j);
      }
    }
    forall k | 0 <= k < |names'| ensures IndexOfScope(d', names'[k]) < |d'| {
      IndexOfScopeAppends(d, option, names'[k]);
    }
  }

  lemma ReplacedKeepsFirstSeen(d: Dict, names: seq<string>, at: nat, option: ScopeOption)
    requires IsFirstSeen(d, names) && at < |d| && d[at].scope == option.scope
    ensures IsFirstSeen(d[at := option], names + [option.scope])
  {
    hide IndexOfScope, IndexOf;
    var (d', names') := (d[at := option], names + [option.scope]);
    assert forall i :: 0 <= i < |d| ==> d'[i].scope == d[i].scope;
    forall i, j | 0 <= i < j < |d'| ensures IndexOf(names', d'[i].scope) < IndexOf(names', d'[j].scope) {
      SeenBefore(d, names, option.scope, i);
      SeenBefore(d, names, option.scope, j);
    }
    forall k | 0 <= k < |names'| ensures IndexOfScope(d', names'[k]) < |d'| {
      var j := if k < |names| then IndexOfScope(d, names[k]) else at;
      assert d'[j].scope == names'[k];
    }
  }

  lemma PutKeepsFirstSeen(d: Dict, names: seq<string>, option: ScopeOption)
    requires IsFirstSeen(d, names)
    ensures IsFirstSeen(Put(d, option), names + [option.scope])
  {
    hide IsFirstSeen, IndexOfScope;
    var at := IndexOfScope(d, option.scope);
    if at < |d| {
      ReplacedKeepsFirstSeen(d, names, at, option);
    } else {
      AddedKeepsFirstSeen(d, names, option);
    }
  }

  lemma {:induction false} CuratedIsFirstSeen(curated: seq<CuratedEntry>)
    ensures IsFirstSeen(CuratedDict(curated), Named(curated, []))
  {
    hide Put, IsFirstSeen;
    if curated == [] {
      assert CuratedDict(curated) == [] && Named(curated, []) == [];
      NothingSeen();
    } else {
      var n := |curated| - 1;
      CuratedIsFirstSeen(curated[..n]);
      PutKeepsFirstSeen(CuratedDict(curated[..n]), Named(curated[..n], []), FromEntry(curated[n]));
      assert Named(curated, []) == Named(curated[..n], []) + [curated[n].scope];
    }
  }

  lemma NothingSeen()
    ensures IsFirstSeen([], [])
  {
  }

  lemma {:induction false} ToolsKeepFirstSeen(curated: seq<CuratedEntry>, tools: seq<ToolInfo>)
    ensures IsFirstSeen(WithTools(CuratedDict(curated), tools), Named(curated, tools))
  {
    hide Put, IsFirstSeen, Lookup, FromTool;
    if tools == [] {
      CuratedIsFirstSeen(curated);
    } else {
      var n := |tools| - 1;
      ToolsKeepFirstSeen(curated, tools[..n]);
      var before := WithTools(CuratedDict(curated), tools[..n]);
      assert Named(curated, tools[..n]) + [] == Named(curated, tools[..n]);
      if tools[n].requiredScope != "" {
        var option := FromTool(Lookup(before, tools[n].requiredScope), tools[n]);
        FromToolNamesItsScope(Lookup(before, tools[n].requiredScope), tools[n]);
        PutKeepsFirstSeen(before, Named(curated, tools[..n]), option);
      }
    }
  }

  lemma FromToolNamesItsScope(existing: Option<ScopeOption>, tool: ToolInfo)
    ensures FromTool(existing, tool).scope == tool.requiredScope
  {
  }

  // ---- Who decides what is required ------------------------------------------------------------------

  /** What the last curated entry of a scope says about `required`. */
  function CuratedRequired(curated: seq<CuratedEntry>, scope: string): Option<bool> {
    if curated == [] then None
    else if curated[|curated| - 1].scope == scope then curated[|curated| - 1].required
    else CuratedRequired(curated[..|curated| - 1], scope)
  }

  function RequiredIn(d: Dict, scope: string): Option<bool> {
    var option := Lookup(d, scope);
    if option.Some? then option.value.required else None
  }

  lemma PutRequired(d: Dict, option: ScopeOption, scope: string)
    ensures RequiredIn(Put(d, option), scope) == if scope == option.scope then option.required else RequiredIn(d, scope)
  {
    hide IndexOfScope;
    var at := IndexOfScope(d, option.scope);
    if at < |d| {
      var i, i' := IndexOfScope(d, scope), IndexOfScope(d[at := option], scope);
      assert forall j :: 0 <= j < |d| ==> d[at := option][j].scope == d[j].scope;
    } else {
      IndexOfScopeAppends(d, option, scope);
    }
  }

  lemma {:induction false} CuratedDecides(curated: seq<CuratedEntry>, scope: string)
    ensures RequiredIn(CuratedDict(curated), scope) == CuratedRequired(curated, scope)
  {
    hide Put, Lookup;
    if curated == [] {
      assert Lookup([], scope) == None by { NothingInNothing(scope); }
    } else {
      var n := |curated| - 1;
      CuratedDecides(curated[..n], scope);
      PutRequired(CuratedDict(curated[..n]), FromEntry(curated[n]), scope);
    }
  }

  lemma NothingInNothing(scope: string)
    ensures Lookup([], scope) == None
  {
  }

  /** No tool, listed or not, changes what is required. */
  lemma {:induction false} ToolsNeverRequire(curated: seq<CuratedEntry>, tools: seq<ToolInfo>, scope: string)
    ensures RequiredIn(WithTools(CuratedDict(curated), tools), scope) == CuratedRequired(curated, scope)
  {
    hide Put, Lookup;
    CuratedDecides(curated, scope);
    if tools != [] {
      var n := |tools| - 1;
      ToolsNeverRequire(curated, tools[..n], scope);
      var before := WithTools(CuratedDict(curated), tools[..n]);
      if tools[n].requiredScope != "" {
        PutRequired(before, FromTool(Lookup(before, tools[n].requiredScope), tools[n]), scope);
      }
    }
  }

  // ---- The catalogue's promises -----------------------------------------------------------------------------

  predicate EachScopeOnce(options: seq<ScopeOption>) {
    forall i, j :: 0 <= i < j < |options| ==> options[i].scope != options[j].scope
  }

  /** The catalogue is the named scopes in first-seen order, with the curated `required`, then the terms; every
      scope is there once exactly if nobody named the terms themselves. */
  lemma CatalogueIsTheUnion(curated: seq<CuratedEntry>, tools: Option<seq<ToolInfo>>)
    ensures var options := ResolveConsentScopes(curated, tools);
            var names := Named(curated, Listed(tools));
            var n := |options| - 1;
            && options[n] == TERMS
            && IsFirstSeen(options[..n], names)
            && (forall i :: 0 <= i < n ==> options[i].required == CuratedRequired(curated, options[i].scope))
            && (EachScopeOnce(options) <==> ACCEPT_TERMS !in names)
  {
    hide WithTools, Labelled, CuratedDict, Named, IsFirstSeen, CuratedRequired, IndexOfScope;
    var names := Named(curated, Listed(tools));
    var d := WithTools(CuratedDict(curated), Listed(tools));
    var options := ResolveConsentScopes(curated, tools);
    ToolsKeepFirstSeen(curated, Listed(tools));
    forall i | 0 <= i < |d| ensures options[i].scope == d[i].scope
                                 && options[i].required == CuratedRequired(curated, d[i].scope) {
      LabelledKeepsTheRest(d[i]);
      ToolsNeverRequire(curated, Listed(tools), d[i].scope);
      FoundWhereItIs(d, names, i);
    }
    LabelsDoNotMove(d, options[..|d|], names);
    OnceIffAbsent(options[..|d|], names, TERMS);
    assert options == options[..|d|] + [TERMS];
  }

  lemma OnceIffAbsent(d: Dict, names: seq<string>, last: ScopeOption)
    requires IsFirstSeen(d, names)
    ensures EachScopeOnce(d + [last]) <==> last.scope !in names
  {
    hide IndexOf;
    var all := d + [last];
    assert all[|d|] == last;
    forall i, j | 0 <= i < j < |d| ensures all[i].scope != all[j].scope {
      assert IndexOf(names, d[i].scope) < IndexOf(names, d[j].scope);
    }
    if last.scope in names {
      var k :| 0 <= k < |names| && names[k] == last.scope;
      var j := IndexOfScope(d, names[k]);
      assert all[j].scope == all[|d|].scope;
    } else {
      assert forall i :: 0 <= i < |d| ==> all[i].scope == d[i].scope && d[i].scope in names;
    }
  }

  lemma LabelledKeepsTheRest(option: ScopeOption)
    ensures Labelled(option).scope == option.scope && Labelled(option).required == option.required
  {
  }

  lemma FoundWhereItIs(d: Dict, names: seq<string>, i: nat)
    requires IsFirstSeen(d, names) && i < |d|
    ensures IndexOfScope(d, d[i].scope) == i
  {
    hide IndexOf;
    forall j | 0 <= j < i ensures d[j].scope != d[i].scope {
      assert IndexOf(names, d[j].scope) < IndexOf(names, d[i].scope);
    }
  }

  lemma LabelsDoNotMove(d: Dict, d': Dict, names: seq<string>)
    requires IsFirstSeen(d, names) && |d'| == |d| && forall i :: 0 <= i < |d| ==> d'[i].scope == d[i].scope
    ensures IsFirstSeen(d', names)
  {
    forall k | 0 <= k < |names| ensures IndexOfScope(d', names[k]) < |d'| {
      assert d'[IndexOfScope(d, names[k])].scope == names[k];
    }
  }

  /** An unreachable tool server gives the catalogue of no tools. */
  lemma UnreachableIsNoTools(curated: seq<CuratedEntry>)
    ensures ResolveConsentScopes(curated, None) == ResolveConsentScopes(curated, Some([]))
  {
  }

  // ---- Who decides what an option is called ---------------------------------------------------------

  /** The last word on a scope's label: of the last tool of the scope that gives one, null being none; else of the last
      curated entry. */
  function CaptionSaid(curated: seq<CuratedEntry>, tools: seq<ToolInfo>, scope: string): string
    decreases |tools|, |curated|
  {
    if tools != [] then
      var tool, before := tools[|tools| - 1], tools[..|tools| - 1];
      if tool.requiredScope != scope || tool.caption.Missing? then CaptionSaid(curated, before, scope)
      else if tool.caption.Given? then tool.caption.text
      else ""
    else if curated == [] then ""
    else if curated[|curated| - 1].scope == scope then curated[|curated| - 1].caption
    else CaptionSaid(curated[..|curated| - 1], [], scope)
  }

  /** The last word on its description: the metadata of a tool before the tool's own, null being none. */
  function DescriptionSaid(curated: seq<CuratedEntry>, tools: seq<ToolInfo>, scope: string): Option<string>
    decreases |tools|, |curated|
  {
    if tools != [] then
      var tool, before := tools[|tools| - 1], tools[..|tools| - 1];
      if tool.requiredScope != scope || (tool.description.Missing? && tool.toolDescription.Missing?) then
        DescriptionSaid(curated, before, scope)
      else
        match if tool.description.Missing? then tool.toolDescription else tool.description
        case Given(text) => Some(text)
        case _ => None
    else if curated == [] then None
    else if curated[|curated| - 1].scope == scope then curated[|curated| - 1].description
    else DescriptionSaid(curated[..|curated| - 1], [], scope)
  }

  lemma PutLooksUp(d: Dict, option: ScopeOption, scope: string)
    ensures Lookup(Put(d, option), scope) == if option.scope == scope then Some(option) else Lookup(d, scope)
  {
    var at, d' := IndexOfScope(d, option.scope), Put(d, option);
    if at == |d| {
      IndexOfScopeAppends(d, option, scope);
    } else {
      assert forall i :: 0 <= i < |d| ==> d'[i].scope == d[i].scope;
      var i, j := IndexOfScope(d, scope), IndexOfScope(d', scope);
      assert i < |d| ==> d'[i].scope == scope;
      assert j < |d| ==> d[j].scope == scope;
      assert i == j;
    }
  }

  lemma {:induction false} CuratedSays(curated: seq<CuratedEntry>, scope: string)
    ensures match Lookup(CuratedDict(curated), scope)
            case Some(option) => option.caption == CaptionSaid(curated, [], scope) && option.description == DescriptionSaid(curated, [], scope)
            case None => CaptionSaid(curated, [], scope) == "" && DescriptionSaid(curated, [], scope) == None
    decreases |curated|
  {
    hide Put, Lookup;
    if curated == [] {
      assert Lookup([], scope) == None by { NothingIsListed(scope); }
    } else {
      var n := |curated| - 1;
      CuratedSays(curated[..n], scope);
      PutLooksUp(CuratedDict(curated[..n]), FromEntry(curated[n]), scope);
    }
  }

  lemma NothingIsListed(scope: string)
    ensures Lookup([], scope) == None
  {
  }

  /** Of all that is said about a scope, by entries and then tools, the last word counts. */
  lemma {:induction false} DictSays(curated: seq<CuratedEntry>, tools: seq<ToolInfo>, scope: string)
    requires scope != ""
    ensures match Lookup(WithTools(CuratedDict(curated), tools), scope)
            case Some(option) =>
              option.caption == CaptionSaid(curated, tools, scope) && option.description == DescriptionSaid(curated, tools, scope)
            case None => CaptionSaid(curated, tools, scope) == "" && DescriptionSaid(curated, tools, scope) == None
    decreases |tools|
  {
    hide Put, Lookup;
    if tools == [] {
      CuratedSays(curated, scope);
    } else {
      var n := |tools| - 1;
      var before := WithTools(CuratedDict(curated), tools[..n]);
      DictSays(curated, tools[..n], scope);
      if tools[n].requiredScope != "" {
        PutLooksUp(before, FromTool(Lookup(before, tools[n].requiredScope), tools[n]), scope);
      }
    }
  }

  /** In the catalogue a named scope is called what was said last, or, if that is empty, the words of the scope itself;
      its description is what was said last. */
  lemma CatalogueSays(curated: seq<CuratedEntry>, tools: Option<seq<ToolInfo>>, k: nat)
    requires k < |ResolveConsentScopes(curated, tools)| - 1 && ResolveConsentScopes(curated, tools)[k].scope != ""
    ensures var option := ResolveConsentScopes(curated, tools)[k];
            var said := CaptionSaid(curated, Listed(tools), option.scope);
            && option.caption == (if said != "" then said else Text.Joined(Text.Words(option.scope, IsGap), ' '))
            && option.description == DescriptionSaid(curated, Listed(tools), option.scope)
  {
    hide WithTools, CuratedDict, CaptionSaid, DescriptionSaid, HumanizeScope, IndexOfScope, IndexOf;
    var d := WithTools(CuratedDict(curated), Listed(tools));
    var option := ResolveConsentScopes(curated, tools)[k];
    assert option == Labelled(d[k]);
    ToolsKeepFirstSeen(curated, Listed(tools));
    FoundWhereItIs(d, Named(curated, Listed(tools)), k);
    DictSays(curated, Listed(tools), option.scope);
    HumanizedIsItsWords(option.scope);
  }

  // ---- Signing -------------------------------------------------------------------------------------------------

  /** What the accept route finds missing: required options not selected. */
  predicate MissesNone(options: seq<ScopeOption>, scopes: seq<string>) {
    forall i :: 0 <= i < |options| && options[i].required == Some(true) ==> options[i].scope in scopes
  }

  /** A grant is asked for exactly if the selection has the terms and every scope the curated list requires,
      whatever the tool server answered. */
  lemma SignedIffRequiredAreSelected(curated: seq<CuratedEntry>, tools: Option<seq<ToolInfo>>, scopes: seq<string>)
    ensures MissesNone(ResolveConsentScopes(curated, tools), scopes)
       <==> ACCEPT_TERMS in scopes && forall scope :: CuratedRequired(curated, scope) == Some(true) ==> scope in scopes
  {
    hide ResolveConsentScopes, Named, CuratedRequired;
    CatalogueIsTheUnion(curated, tools);
    var options := ResolveConsentScopes(curated, tools);
    var names, n := Named(curated, Listed(tools)), |options| - 1;
    if MissesNone(options, scopes) {
      forall scope | CuratedRequired(curated, scope) == Some(true) ensures scope in scopes {
        RequiredIsNamed(curated, Listed(tools), scope);
        var k :| 0 <= k < |names| && names[k] == scope;
        var i := IndexOfScope(options[..n], scope);
        assert options[..n][i] == options[i] && options[i].scope == scope;
      }
    } else {
      var i :| 0 <= i < |options| && options[i].required == Some(true) && options[i].scope !in scopes;
      assert i < n ==> options[i].required == CuratedRequired(curated, options[i].scope);
    }
  }

  lemma {:induction false} RequiredIsNamed(curated: seq<CuratedEntry>, tools: seq<ToolInfo>, scope: string)
    requires CuratedRequired(curated, scope).Some?
    ensures scope in Named(curated, tools)
    decreases |tools|, |curated|
  {
    if tools != [] {
      RequiredIsNamed(curated, tools[..|tools| - 1], scope);
    } else {
      var n := |curated| - 1;
      if curated[n].scope == scope {
        assert Named(curated, [])[n] == scope;
      } else {
        RequiredIsNamed(curated[..n], [], scope);
        var k :| 0 <= k < |Named(curated[..n], [])| && Named(curated[..n], [])[k] == scope;
        assert Named(curated, [])[k] == scope;
      }
    }
  }
}
