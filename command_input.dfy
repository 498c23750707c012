/**
 * The slash-command text field of the TipTap editor (src/editor/CommandInput.tsx).
 * Typing a `/` in the field enters command mode and everything after the
 * last `/` becomes the query; the matching commands are listed in groups,
 * a wrap-around highlight is moved with the arrow keys, and Enter (or a
 * press on an item) runs the highlighted command after deleting the
 * `/query` that precedes the editor's caret.
 */
module CommandInput {
  import opened Text
  import opened Seqs
  import opened Wrappers

  datatype Group = AI | Style | Insert

  /** A command whose `action` is identified by its `id`; an absent keyword list is `[]`. */
  datatype CommandOption = CommandOption(id: string, title: string, keywords: seq<string>, group: Option<Group>)

  /** `c.group || "Style"`. */
  function GroupOf(c: CommandOption): (g: Group)
    ensures c.group.Some? ==> g == c.group.value
    ensures c.group.None? ==> g == Style
  {
    if c.group.Some? then c.group.value else Style
  }

  /** `DEFAULT_COMMANDS`. */
  const DefaultCommands: seq<CommandOption> := [
    CommandOption("continue", "Continue Writing", ["ai", "continue"], Some(AI)),
    CommandOption("askai", "Ask AI", ["ai", "ask"], Some(AI)),
    CommandOption("paragraph", "Paragraph", ["text", "p"], Some(Style)),
    CommandOption("h1", "Heading 1", ["title", "h1", "heading"], Some(Style)),
    CommandOption("h2", "Heading 2", ["subtitle", "h2", "heading"], Some(Style)),
    CommandOption("bulletList", "Bulleted list", ["list", "ul", "bullet"], Some(Style)),
    CommandOption("orderedList", "Numbered list", ["list", "ol", "number"], Some(Style)),
    CommandOption("taskList", "Task list", ["todo", "checkbox", "tasks"], Some(Style)),
    CommandOption("image", "Image (URL)", ["img", "picture", "media"], Some(Insert)),
    CommandOption("table", "Insert table", ["grid", "table"], Some(Insert)),
    CommandOption("codeBlock", "Code block", ["code", "snippet"], Some(Insert))
  ]

  // ---------------------------------------------------------------------
  // Filtering

  /** The lower-cased title (`label`), or some lower-cased keyword, contains `q`. */
  predicate Matches(c: CommandOption, q: string)
    ensures q == "" ==> Matches(c, q)
    ensures Includes(ToLower(c.title), q) ==> Matches(c, q)
  {
    IncludesEmpty(ToLower(c.title));
    || Includes(ToLower(c.title), q)
    || exists k :: 0 <= k < |c.keywords| && Includes(ToLower(c.keywords[k]), q)
  }

  function MatchesQuery(q: string): CommandOption -> bool {
    c => Matches(c, q)
  }

  lemma EmptyQueryMatchesAll(commands: seq<CommandOption>)
    ensures Filter(commands, MatchesQuery("")) == commands
  {
    forall k | 0 <= k < |commands|
      ensures MatchesQuery("")(commands[k])
    {
      IncludesEmpty(ToLower(commands[k].title));
    }
    FilterAll(commands, MatchesQuery(""));
  }

  /** The `filtered` memo. */
  function FilteredCommands(isCommandMode: bool, query: string, commands: seq<CommandOption>): (r: seq<CommandOption>)
    ensures !isCommandMode ==> r == []
    ensures isCommandMode && Trim(query) == "" ==> r == commands
    ensures isCommandMode ==> IsSubsequence(r, commands)
    ensures isCommandMode ==> forall c :: c in r <==> c in commands && Matches(c, ToLower(Trim(query)))
  {
    if !isCommandMode then []
    else
      var q := ToLower(Trim(query));
      if q == "" then
        EmptyQueryMatchesAll(commands);
        commands
      else Filter(commands, MatchesQuery(q))
  }

  /** The command field trims its query: a lone space lists every command. */
  lemma SpaceQueryIsTrimmed()
    ensures FilteredCommands(true, " ", DefaultCommands) == DefaultCommands
  {
    assert IsSpace(" "[0]);
    assert Trim(" ") == "" by {
      assert TrimStart(" ") == TrimStart(" "[1..]);
    }
  }

  // ---------------------------------------------------------------------
  // Grouping

  /** The commands of one group, in list order: what the `push`es of one group collect. */
  function Members(s: seq<CommandOption>, g: Group): seq<CommandOption> {
    if s == [] then []
    else
      var c := s[|s| - 1];
      Members(s[..|s| - 1], g) + (if GroupOf(c) == g then [c] else [])
  }

  function InGroup(g: Group): CommandOption -> bool {
    c => GroupOf(c) == g
  }

  /** A group's list is the commands filtered by their group. */
  lemma {:induction false} MembersIsFilter(s: seq<CommandOption>, g: Group)
    ensures Members(s, g) == Filter(s, InGroup(g))
    decreases |s|
  {
    if s != [] {
      var init, last := s[..|s| - 1], s[|s| - 1];
      assert init + [last] == s;
      MembersIsFilter(init, g);
      FilterSnoc(init, last, InGroup(g));
      assert Members(s, g) == Members(init, g) + (if InGroup(g)(last) then [last] else []);
    }
  }

  /** The group names in the order a `Map` first sees them. */
  function FirstSeenGroups(s: seq<CommandOption>): seq<Group> {
    if s == [] then []
    else
      var gs, g := FirstSeenGroups(s[..|s| - 1]), GroupOf(s[|s| - 1]);
      if g in gs then gs else gs + [g]
  }

  /** A `Map` key is listed once. */
  ghost predicate Distinct(gs: seq<Group>) {
    forall i, j :: 0 <= i < j < |gs| ==> gs[i] != gs[j]
  }

  lemma {:induction false} FirstSeenDistinct(s: seq<CommandOption>)
    ensures Distinct(FirstSeenGroups(s))
    decreases |s|
  {
    if s != [] {
      var gs, g := FirstSeenGroups(s[..|s| - 1]), GroupOf(s[|s| - 1]);
      FirstSeenDistinct(s[..|s| - 1]);
      if g !in gs {
        var r := gs + [g];
        forall i, j | 0 <= i < j < |r|
          ensures r[i] != r[j]
        {
          assert r[i] == gs[i] && gs[i] in gs;
          if j < |gs| {
            assert r[j] == gs[j];
          }
        }
      }
    }
  }

  /** Every command's group is listed. */
  lemma {:induction false} FirstSeenCovers(s: seq<CommandOption>)
    ensures forall k :: 0 <= k < |s| ==> GroupOf(s[k]) in FirstSeenGroups(s)
    decreases |s|
  {
    if s != [] {
      var init := s[..|s| - 1];
      FirstSeenCovers(init);
      assert forall k :: 0 <= k < |init| ==> s[k] == init[k];
    }
  }

  /** Index of the first command of group `g`, or `|s|` when there is none. */
  function FirstIndex(s: seq<CommandOption>, g: Group): (r: nat)
    ensures r <= |s|
    ensures r < |s| ==> GroupOf(s[r]) == g
    ensures forall k :: 0 <= k < r ==> GroupOf(s[k]) != g
  {
    if s == [] then 0
    else if GroupOf(s[0]) == g then 0
    else 1 + FirstIndex(s[1..], g)
  }

  /** The three facts `FirstIndex` ensures pin it down. */
  lemma {:induction false} FirstIndexUnique(s: seq<CommandOption>, g: Group, r: nat)
    requires r <= |s| && (r < |s| ==> GroupOf(s[r]) == g)
    requires forall k :: 0 <= k < r ==> GroupOf(s[k]) != g
    ensures FirstIndex(s, g) == r
    decreases |s|
  {
    if s != [] && GroupOf(s[0]) != g {
      FirstIndexUnique(s[1..], g, r - 1);
    }
  }

  lemma FirstIndexSnoc(s: seq<CommandOption>, x: CommandOption, g: Group)
    ensures FirstIndex(s + [x], g) ==
      if FirstIndex(s, g) < |s| then FirstIndex(s, g)
      else if GroupOf(x) == g then |s| else |s| + 1
  {
    var t := s + [x];
    var e := if FirstIndex(s, g) < |s| then FirstIndex(s, g) else if GroupOf(x) == g then |s| else |s| + 1;
    assert forall k :: 0 <= k < |s| ==> t[k] == s[k];
    FirstIndexUnique(t, g, e);
  }

  /** Every listed group occurs, and earlier-listed groups occur first. */
  ghost predicate ListedInFirstSeenOrder(s: seq<CommandOption>, gs: seq<Group>) {
    && (forall i :: 0 <= i < |gs| ==> FirstIndex(s, gs[i]) < |s|)
    && (forall i, j :: 0 <= i < j < |gs| ==> FirstIndex(s, gs[i]) < FirstIndex(s, gs[j]))
  }

  /**
   * Groups are listed in the order in which their first command occurs, and
   * every listed group has a command.
   */
  lemma {:induction false} FirstSeenOrder(s: seq<CommandOption>)
    ensures ListedInFirstSeenOrder(s, FirstSeenGroups(s))
  {
    if s != [] {
      var init, x := s[..|s| - 1], s[|s| - 1];
      assert s == init + [x];
      FirstSeenOrder(init);
      var gs0, g := FirstSeenGroups(init), GroupOf(x);
      var gs := FirstSeenGroups(s);
      // the groups already listed keep their first index
      forall i | 0 <= i < |gs0|
        ensures FirstIndex(s, gs0[i]) == FirstIndex(init, gs0[i])
      {
        FirstIndexSnoc(init, x, gs0[i]);
      }
      if g !in gs0 {
        // a new group is listed last, and its first command is the last one
        FirstIndexSnoc(init, x, g);
        FirstSeenCovers(init);
        assert FirstIndex(s, g) == |init|;
        forall i | 0 <= i < |gs|
          ensures FirstIndex(s, gs[i]) < |s|
          ensures i < |gs0| ==> gs[i] == gs0[i]
        {
          if i == |gs0| {
            assert gs[i] == g;
          }
        }
      }
    }
  }

  lemma {:induction false} MembersIff(s: seq<CommandOption>, g: Group, c: CommandOption)
    ensures c in Members(s, g) <==> c in s && GroupOf(c) == g
    decreases |s|
  {
    if s != [] {
      var init := s[..|s| - 1];
      MembersIff(init, g, c);
      assert s == init + [s[|s| - 1]];
    }
  }

  /** A group no command has gets no members. */
  lemma {:induction false} MembersNone(s: seq<CommandOption>, g: Group)
    requires forall k :: 0 <= k < |s| ==> GroupOf(s[k]) != g
    ensures Members(s, g) == []
    decreases |s|
  {
    if s != [] {
      MembersNone(s[..|s| - 1], g);
      MembersSnoc(s[..|s| - 1], s[|s| - 1], g);
      assert s == s[..|s| - 1] + [s[|s| - 1]];
    }
  }

  /** Grouping covers the list: each command is in the listed group that bears its name. */
  lemma GroupsCover(s: seq<CommandOption>, k: nat)
    requires k < |s|
    ensures GroupOf(s[k]) in FirstSeenGroups(s) && s[k] in Members(s, GroupOf(s[k]))
  {
    FirstSeenCovers(s);
    MembersIff(s, GroupOf(s[k]), s[k]);
  }

  /** Grouping is disjoint: no command is in two listed groups. */
  lemma GroupsDisjoint(s: seq<CommandOption>, c: CommandOption, i: nat, j: nat)
    requires i < |FirstSeenGroups(s)| && j < |FirstSeenGroups(s)|
    requires c in Members(s, FirstSeenGroups(s)[i]) && c in Members(s, FirstSeenGroups(s)[j])
    ensures i == j
  {
    var gs := FirstSeenGroups(s);
    FirstSeenDistinct(s);
    MembersIff(s, gs[i], c);
    MembersIff(s, gs[j], c);
  }

  /** No listed group is empty: its first command belongs to it. */
  lemma GroupsNonEmpty(s: seq<CommandOption>, i: nat)
    requires i < |FirstSeenGroups(s)|
    ensures var g := FirstSeenGroups(s)[i];
      FirstIndex(s, g) < |s| && s[FirstIndex(s, g)] in Members(s, g)
  {
    var g := FirstSeenGroups(s)[i];
    FirstSeenOrder(s);
    MembersIff(s, g, s[FirstIndex(s, g)]);
  }

  /** `order` and `m` are the insertion order and contents of the `Map` after `prefix`. */
  ghost predicate GroupedSoFar(prefix: seq<CommandOption>, order: seq<Group>, m: map<Group, seq<CommandOption>>) {
    && order == FirstSeenGroups(prefix)
    && (forall g :: g in m <==> g in order)
    && (forall g :: g in m ==> m[g] == Members(prefix, g))
  }

  /** The first-seen order after one more command. */
  lemma FirstSeenSnoc(prefix: seq<CommandOption>, c: CommandOption)
    ensures FirstSeenGroups(prefix + [c]) ==
      var gs := FirstSeenGroups(prefix);
      if GroupOf(c) in gs then gs else gs + [GroupOf(c)]
  {
    assert (prefix + [c])[..|prefix|] == prefix;
  }

  /** A group's members after one more command. */
  lemma MembersSnoc(prefix: seq<CommandOption>, c: CommandOption, h: Group)
    ensures Members(prefix + [c], h) == Members(prefix, h) + (if GroupOf(c) == h then [c] else [])
  {
    assert (prefix + [c])[..|prefix|] == prefix;
  }

  /** One pass of the loop for a group already in the `Map`: only `push`. */
  lemma GroupStepKnown(prefix: seq<CommandOption>, c: CommandOption, order: seq<Group>, m: map<Group, seq<CommandOption>>)
    requires GroupedSoFar(prefix, order, m)
    requires GroupOf(c) in m
    ensures GroupedSoFar(prefix + [c], order, m[GroupOf(c) := m[GroupOf(c)] + [c]])
  {
    var m2 := m[GroupOf(c) := m[GroupOf(c)] + [c]];
    FirstSeenSnoc(prefix, c);
    forall h | h in m2
      ensures m2[h] == Members(prefix + [c], h)
    {
      MembersSnoc(prefix, c, h);
    }
  }

  /** One pass of the loop for a new group: `set` it to `[]`, then `push`. */
  lemma GroupStepNew(prefix: seq<CommandOption>, c: CommandOption, order: seq<Group>, m: map<Group, seq<CommandOption>>)
    requires GroupedSoFar(prefix, order, m)
    requires GroupOf(c) !in m
    ensures GroupedSoFar(prefix + [c], order + [GroupOf(c)], m[GroupOf(c) := [c]])
  {
    var m2 := m[GroupOf(c) := [c]];
    FirstSeenSnoc(prefix, c);
    forall h | h in m2
      ensures m2[h] == Members(prefix + [c], h)
    {
      MembersSnoc(prefix, c, h);
      if h == GroupOf(c) {
        FirstSeenCovers(prefix);
        MembersNone(prefix, h);
      }
    }
  }

  /** The `for … of` loop: one pass that fills the `Map` and records its insertion order. */
  method BuildGroupMap(filtered: seq<CommandOption>) returns (order: seq<Group>, m: map<Group, seq<CommandOption>>)
    ensures GroupedSoFar(filtered, order, m)
  {
    order, m := [], map[];
    for i := 0 to |filtered|
      invariant GroupedSoFar(filtered[..i], order, m)
    {
      var c := filtered[i];
      var g := GroupOf(c);
      assert filtered[..i + 1] == filtered[..i] + [c];
      if g !in m {
        // `set(g, [])` followed by `push(c)`
        GroupStepNew(filtered[..i], c, order, m);
        m, order := m[g := [c]], order + [g];
      } else {
        GroupStepKnown(filtered[..i], c, order, m);
        m := m[g := m[g] + [c]];
      }
    }
    assert filtered[..|filtered|] == filtered;
  }

  /** The `grouped` memo: `Array.from(map.entries())` of the `Map` built by one pass over the list. */
  method GroupByFirstSeen(filtered: seq<CommandOption>) returns (groups: seq<(Group, seq<CommandOption>)>)
    ensures |groups| == |FirstSeenGroups(filtered)|
    ensures forall i :: 0 <= i < |groups| ==>
      groups[i].0 == FirstSeenGroups(filtered)[i] && groups[i].1 == Members(filtered, groups[i].0)
  {
    var order, m := BuildGroupMap(filtered);
    groups := [];
    for k := 0 to |order|
      invariant |groups| == k
      invariant forall j :: 0 <= j < k ==> groups[j] == (order[j], m[order[j]])
    {
      groups := groups + [(order[k], m[order[k]])];
    }
  }

  // ---------------------------------------------------------------------
  // Keys

  /** The `KeyboardEvent.key` names `onKeyDown` tells apart; every other key is `OtherKey`. */
  datatype Key = ArrowDown | ArrowUp | Enter | Escape | OtherKey

  function KeyOf(name: string): (k: Key)
    ensures k == ArrowDown <==> name == "ArrowDown"
    ensures k == ArrowUp <==> name == "ArrowUp"
    ensures k == Enter <==> name == "Enter"
    ensures k == Escape <==> name == "Escape"
    ensures k == OtherKey <==> name !in {"ArrowDown", "ArrowUp", "Enter", "Escape"}
  {
    if name == "ArrowDown" then ArrowDown
    else if name == "ArrowUp" then ArrowUp
    else if name == "Enter" then Enter
    else if name == "Escape" then Escape
    else OtherKey
  }

  // ---------------------------------------------------------------------
  // Highlight movement

  /** `Math.max(1, n)`. */
  function Span(n: nat): (m: nat)
    ensures m >= 1 && m >= n
  {
    if n > 1 then n else 1
  }

  /** ArrowDown: `(i + 1) % Math.max(1, n)`. */
  function NextIndex(i: nat, n: nat): (r: nat)
    ensures r < Span(n)
    ensures i < Span(n) ==> r == if i + 1 == Span(n) then 0 else i + 1
  {
    (i + 1) % Span(n)
  }

  /** ArrowUp: `(i - 1 + Math.max(1, n)) % Math.max(1, n)`. */
  function PrevIndex(i: nat, n: nat): (r: nat)
    ensures r < Span(n)
    ensures i < Span(n) ==> r == if i == 0 then Span(n) - 1 else i - 1
  {
    (i - 1 + Span(n)) % Span(n)
  }

  /** Down then Up, or Up then Down, returns to an index that was in range. */
  lemma NextPrevInverse(i: nat, n: nat)
    requires i < Span(n)
    ensures PrevIndex(NextIndex(i, n), n) == i
    ensures NextIndex(PrevIndex(i, n), n) == i
  {
  }

  /** Enter: `filtered[activeIndex] || filtered[0]`. */
  function Selected(filtered: seq<CommandOption>, activeIndex: nat): (r: Option<CommandOption>)
    ensures r.None? <==> filtered == []
    ensures r.Some? ==> r.value in filtered
    ensures activeIndex < |filtered| ==> r == Some(filtered[activeIndex])
    ensures activeIndex >= |filtered| && filtered != [] ==> r == Some(filtered[0])
  {
    if activeIndex < |filtered| then Some(filtered[activeIndex])
    else if filtered != [] then Some(filtered[0])
    else None
  }

  // ---------------------------------------------------------------------
  // Slash parsing

  /** `onChange`'s parse: the text after the last `/`, or nothing without a `/`. */
  function SlashQuery(s: string): (r: Option<string>)
    ensures r.None? <==> '/' !in s
    ensures r.Some? ==> |r.value| < |s| && s == s[..|s| - |r.value| - 1] + "/" + r.value && '/' !in r.value
  {
    var k := LastIndexOf(s, '/');
    if k == -1 then None
    else
      assert s == s[..k] + "/" + s[k + 1..];
      Some(s[k + 1..])
  }

  lemma HasSpaceWiderSuffix(t: string, k: nat, j: nat)
    requires k <= j <= |t| && HasSpace(t[j..])
    ensures HasSpace(t[k..])
  {
    var i :| 0 <= i < |t[j..]| && IsSpace(t[j..][i]);
    assert t[k..][i + j - k] == t[j..][i];
  }

  /**
   * Where the trailing `/query` starts in the text from block start to
   * caret: at the last `/`, provided no white space follows it. There is
   * none exactly when every `/` has white space somewhere after it.
   */
  function SlashQueryStart(t: string): (r: Option<nat>)
    ensures r.Some? ==> r.value < |t| && t[r.value] == '/' && '/' !in t[r.value + 1..] && !HasSpace(t[r.value + 1..])
    ensures r.None? ==> forall k :: 0 <= k < |t| && t[k] == '/' ==> HasSpace(t[k + 1..])
  {
    var last := LastIndexOf(t, '/');
    if last == -1 then None
    else if HasSpace(t[last + 1..]) then
      assert forall k :: 0 <= k < |t| && t[k] == '/' ==> k <= last by {
        forall k | 0 <= k < |t| && t[k] == '/' ensures k <= last {
        }
      }
      assert forall k :: 0 <= k < |t| && t[k] == '/' ==> HasSpace(t[k + 1..]) by {
        forall k | 0 <= k < |t| && t[k] == '/' ensures HasSpace(t[k + 1..]) {
          HasSpaceWiderSuffix(t, k + 1, last + 1);
        }
      }
      None
    else Some(last)
  }

  /**
   * `removeTrailingSlashQuery` on a text with the caret's block starting at
   * `blockStart`: the new text and caret.
   */
  function DeleteSlashQuery(text: string, blockStart: nat, caret: nat): (r: (string, nat))
    requires blockStart <= caret <= |text|
    ensures r.1 <= caret && blockStart <= r.1 && r.1 <= |r.0|
    ensures SlashQueryStart(text[blockStart..caret]).None? ==> r == (text, caret)
    ensures SlashQueryStart(text[blockStart..caret]).Some? ==>
      var from := blockStart + SlashQueryStart(text[blockStart..caret]).value;
      text[from] == '/' && !HasSpace(text[from + 1..caret]) &&
      r == (text[..from] + text[caret..], from)
  {
    match SlashQueryStart(text[blockStart..caret])
    case None => (text, caret)
    case Some(k) =>
      var from := blockStart + k;
      assert text[from + 1..caret] == text[blockStart..caret][k + 1..];
      (text[..from] + text[caret..], from)
  }

  // ---------------------------------------------------------------------
  // State

  /**
   * The part of the TipTap editor the command field touches: its text as
   * one flat string, the start of the block holding the caret, the caret,
   * and the commands applied so far (as their ids).
   */
  class TextEditor {
    var text: string
    var blockStart: nat
    var caret: nat
    var applied: seq<string>

    ghost predicate Valid()
      reads this
    {
      blockStart <= caret <= |text|
    }

    constructor (text: string, blockStart: nat, caret: nat)
      requires blockStart <= caret <= |text|
      ensures Valid()
      ensures this.text == text && this.blockStart == blockStart && this.caret == caret && applied == []
    {
      this.text := text;
      this.blockStart := blockStart;
      this.caret := caret;
      applied := [];
    }

    /** `removeTrailingSlashQuery(editor)`. */
    method RemoveTrailingSlashQuery()
      requires Valid()
      modifies this
      ensures Valid()
      ensures (text, caret) == DeleteSlashQuery(old(text), old(blockStart), old(caret))
      ensures blockStart == old(blockStart) && applied == old(applied)
    {
      var textBefore := text[blockStart..caret];
      var lastSlash := LastIndexOf(textBefore, '/');
      if lastSlash == -1 {
        return;
      }
      if HasSpace(textBefore[lastSlash + 1..]) {
        return;
      }
      var deleteFrom := blockStart + lastSlash;
      text, caret := text[..deleteFrom] + text[caret..], deleteFrom;
    }

    /** `opt.action(editor)`, recorded by the command's id. */
    method Apply(id: string)
      modifies this`applied
      ensures applied == old(applied) + [id]
    {
      applied := applied + [id];
    }
  }

  /** The component's state: `value`, `isCommandMode`, `query`, `activeIndex`. */
  class CommandField {
    var value: string
    var isCommandMode: bool
    var query: string
    var activeIndex: nat
    const commands: seq<CommandOption>
    const editor: TextEditor?

    /** The effect that zeroes `activeIndex` outside command mode has always run. */
    ghost predicate Valid()
      reads this, editor
    {
      && (!isCommandMode ==> activeIndex == 0)
      && (editor != null ==> editor.Valid())
    }

    function Filtered(): seq<CommandOption>
      reads this
    {
      FilteredCommands(isCommandMode, query, commands)
    }

    constructor (editor: TextEditor?)
      requires editor != null ==> editor.Valid()
      ensures Valid()
      ensures value == "" && !isCommandMode && query == "" && activeIndex == 0
      ensures commands == DefaultCommands && this.editor == editor
    {
      value, isCommandMode, query, activeIndex := "", false, "", 0;
      commands := DefaultCommands;
      this.editor := editor;
    }

    /** `onChange`: the field's new text decides the mode and the query. */
    method OnChange(next: string)
      requires Valid()
      modifies this
      ensures Valid()
      ensures value == next
      ensures SlashQuery(next).Some? ==>
        isCommandMode && query == SlashQuery(next).value && activeIndex == old(activeIndex)
      ensures SlashQuery(next).None? ==> !isCommandMode && query == "" && activeIndex == 0
    {
      value := next;
      var slashIndex := LastIndexOf(next, '/');
      if slashIndex != -1 {
        isCommandMode := true;
        query := next[slashIndex + 1..];
      } else {
        isCommandMode := false;
        query := "";
        activeIndex := 0;
      }
    }

    /** The popover's own filter field. */
    method OnFilterChange(q: string)
      requires Valid()
      modifies this`query
      ensures Valid()
      ensures query == q
    {
      query := q;
    }

    /** `runOption`: delete the `/query`, apply the command, leave command mode. */
    method RunOption(opt: CommandOption)
      requires Valid()
      modifies this, editor
      ensures Valid()
      ensures editor == null ==> unchanged(this)
      ensures editor != null ==> !isCommandMode && value == "" && query == "" && activeIndex == 0
      ensures editor != null ==>
        (editor.text, editor.caret) == DeleteSlashQuery(old(editor.text), old(editor.blockStart), old(editor.caret))
        && editor.blockStart == old(editor.blockStart)
        && editor.applied == old(editor.applied) + [opt.id]
    {
      if editor == null {
        return;
      }
      editor.RemoveTrailingSlashQuery();
      editor.Apply(opt.id);
      isCommandMode := false;
      value := "";
      query := "";
      activeIndex := 0;
    }

    /** A press on a listed item. */
    method OnItemMouseDown(opt: CommandOption)
      requires Valid() && opt in Filtered()
      modifies this, editor
      ensures Valid()
      ensures editor == null ==> unchanged(this)
      ensures editor != null ==> !isCommandMode && value == "" && query == "" && activeIndex == 0
      ensures editor != null ==>
        (editor.text, editor.caret) == DeleteSlashQuery(old(editor.text), old(editor.blockStart), old(editor.caret))
        && editor.blockStart == old(editor.blockStart)
        && editor.applied == old(editor.applied) + [opt.id]
    {
      RunOption(opt);
    }

    /** A mouse press anywhere: outside the component it leaves command mode. */
    method OnMouseDownAnywhere(inside: bool)
      requires Valid()
      modifies this
      ensures Valid()
      ensures inside ==> unchanged(this)
      ensures !inside ==> !isCommandMode && activeIndex == 0
      ensures value == old(value) && query == old(query)
    {
      if !inside {
        isCommandMode := false;
        activeIndex := 0;
      }
    }

    /** The Enter branch of `onKeyDown`: run the highlighted match, or the first one. */
    method OnEnter()
      requires Valid() && isCommandMode
      modifies this, editor
      ensures Valid()
      ensures editor == null || old(Filtered()) == [] ==>
        unchanged(this) && (editor != null ==> unchanged(editor))
      ensures editor != null && old(Filtered()) != [] ==>
        !isCommandMode && value == "" && query == "" && activeIndex == 0
        && (editor.text, editor.caret) == DeleteSlashQuery(old(editor.text), old(editor.blockStart), old(editor.caret))
        && editor.blockStart == old(editor.blockStart)
        && editor.applied == old(editor.applied) + [Selected(old(Filtered()), old(activeIndex)).value.id]
    {
      var option := Selected(Filtered(), activeIndex);
      if option.Some? && editor != null {
        RunOption(option.value);
      }
    }

    /**
     * `onKeyDown` for the key named `KeyOf(e.key)`; the result says whether the
     * key's default action was prevented.
     */
    method OnKeyDown(key: Key) returns (prevented: bool)
      requires Valid()
      modifies this, editor
      ensures Valid()
      ensures !old(isCommandMode) ==> unchanged(this) && (editor != null ==> unchanged(editor)) && !prevented
      ensures old(isCommandMode) && key == ArrowDown ==>
        activeIndex == NextIndex(old(activeIndex), |old(Filtered())|)
        && isCommandMode && value == old(value) && query == old(query) && prevented && (editor != null ==> unchanged(editor))
      ensures old(isCommandMode) && key == ArrowUp ==>
        activeIndex == PrevIndex(old(activeIndex), |old(Filtered())|)
        && isCommandMode && value == old(value) && query == old(query) && prevented && (editor != null ==> unchanged(editor))
      ensures old(isCommandMode) && key == Enter ==> prevented
      ensures old(isCommandMode) && key == Enter && (editor == null || old(Filtered()) == []) ==>
        unchanged(this) && (editor != null ==> unchanged(editor))
      ensures old(isCommandMode) && key == Enter && editor != null && old(Filtered()) != [] ==>
        !isCommandMode && value == "" && query == "" && activeIndex == 0
        && (editor.text, editor.caret) == DeleteSlashQuery(old(editor.text), old(editor.blockStart), old(editor.caret))
        && editor.blockStart == old(editor.blockStart)
        && editor.applied == old(editor.applied) + [Selected(old(Filtered()), old(activeIndex)).value.id]
      ensures old(isCommandMode) && key == Escape ==>
        !isCommandMode && activeIndex == 0 && value == old(value) && query == old(query) && !prevented && (editor != null ==> unchanged(editor))
      ensures old(isCommandMode) && key == OtherKey ==>
        unchanged(this) && (editor != null ==> unchanged(editor)) && !prevented
    {
      prevented := false;
      if !isCommandMode {
        return;
      }
      var filtered := Filtered();
      if key == ArrowDown {
        prevented := true;
        activeIndex := NextIndex(activeIndex, |filtered|);
      } else if key == ArrowUp {
        prevented := true;
        activeIndex := PrevIndex(activeIndex, |filtered|);
      } else if key == Enter {
        prevented := true;
        OnEnter();
      } else if key == Escape {
        isCommandMode := false;
        activeIndex := 0;
      }
    }
  }
}
