/** One frame of the autocomplete prompt (packages/core/src/components/autocomplete/render.ts): the
    selected header, the filter line, the window of numbered options with their group headers, and the
    key help. Contracts speak of `Strip` of a text: what the user reads once the colours are removed. */
module Render {
  import opened Wrappers
  import opened Seqs
  import opened Builder
  import opened Matching
  import Prompt

  /** How one option is drawn. */
  datatype OptState = Inactive | Active | Selected | ActiveSelected | Submitted | Cancelled

  const CyanBar: Text := Paint("cyan", [Sym(Bar)])

  /** A new line, the bar, then `t`. */
  function BarLine(t: Text): (r: Text)
    ensures Strip(r) == NL + [Sym(Bar)] + Strip(t)
  {
    assert Strip(CyanBar) == [Sym(Bar)] by {
      assert Strip([Sym(Bar)]) == [Sym(Bar)] + Strip([]);
    }
    StripLit("\n");
    StripAppend(NL, CyanBar);
    StripAppend(NL + CyanBar, t);
    NL + CyanBar + t
  }

  /** The hint in parentheses, dimmed; nothing when the hint is missing or empty. */
  function HintText(o: Opt): (r: Text)
    ensures o.hint.Some? && o.hint.value != "" ==> Strip(r) == Lit("(" + o.hint.value + ")")
    ensures o.hint.None? || o.hint.value == "" ==> r == []
  {
    if o.hint.Some? && o.hint.value != "" then
      StripLit("(" + o.hint.value + ")");
      Paint("dim", Lit("(" + o.hint.value + ")"))
    else []
  }

  /** The checkbox an option state starts with. */
  function Mark(st: OptState): Symbol
  {
    match st
    case Active => CheckboxActive
    case Selected | ActiveSelected => CheckboxSelected
    case _ => CheckboxInactive
  }

  /** What an option reads in each state: its label (its value when it has none), after a checkbox except in
      the submitted and cancelled states, followed by a space and the hint only in the two active states. */
  function Reading(o: Opt, st: OptState): Text
  {
    match st
    case Submitted | Cancelled => Lit(Display(o))
    case Inactive | Selected => [Sym(Mark(st)), Ch(' ')] + Lit(Display(o))
    case Active | ActiveSelected => [Sym(Mark(st)), Ch(' ')] + Lit(Display(o)) + ([Ch(' ')] + Strip(HintText(o)))
  }

  /** `opt(option, state)`. */
  function OptText(o: Opt, st: OptState): (r: Text)
    ensures Strip(r) == Reading(o, st)
  {
    var shown := Lit(Display(o));
    StripLit(Display(o));
    assert Strip(Lit(" ") + HintText(o)) == [Ch(' ')] + Strip(HintText(o)) by {
      StripAppend(Lit(" "), HintText(o));
    }
    match st
    case Active => Marked("cyan", CheckboxActive, shown, Lit(" ") + HintText(o))
    case Selected => Marked("green", CheckboxSelected, Paint("dim", shown), [])
    case Cancelled => Paint("strikethrough", Paint("dim", shown))
    case ActiveSelected => Marked("green", CheckboxSelected, shown, Lit(" ") + HintText(o))
    case Submitted => Paint("dim", shown)
    case Inactive => Marked("dim", CheckboxInactive, Paint("dim", shown), [])
  }

  /** A coloured checkbox, a space, the label and what follows it. */
  function Marked(color: string, mark: Symbol, shown: Text, tail: Text): (r: Text)
    ensures Strip(r) == [Sym(mark), Ch(' ')] + Strip(shown) + Strip(tail)
  {
    var box := Paint(color, [Sym(mark)]);
    assert Strip(box) == [Sym(mark)] by {
      assert Strip([Sym(mark)]) == [Sym(mark)] + Strip([]);
    }
    StripAppend(box, Lit(" "));
    StripAppend(box + Lit(" "), shown);
    StripAppend(box + Lit(" ") + shown, tail);
    box + Lit(" ") + shown + tail
  }

  /** Outside the two active states an option reads the same whatever its hint. */
  lemma HintOnlyWhenActive(o: Opt, st: OptState)
    requires st != Active && st != ActiveSelected
    ensures Strip(OptText(o, st)) == Strip(OptText(o.(hint := None), st))
  {
  }

  /** The state `generateOptions` draws an option in: selected wins over active. */
  function VisualStateOf(isSelected: bool, active: bool): (r: OptState)
    ensures r == Selected <==> isSelected
    ensures r == Active <==> !isSelected && active
    ensures r == Inactive <==> !isSelected && !active
  {
    Pick(isSelected, Selected, Pick(active, Active, Inactive))
  }

  /** `selected()`: "Nothing Selected" for an empty selection, otherwise the labels of the selected
      options (the empty string for one without a label) separated by single spaces. */
  function SelectedText(sel: seq<Opt>): (r: Text)
    ensures sel == [] ==> Strip(r) == Lit("Nothing Selected")
    ensures sel != [] ==>
              Strip(r) == JoinWith(seq(|sel|, i requires 0 <= i < |sel| => Lit(sel[i].caption.GetOr(""))), Lit(" "))
  {
    if sel == [] then
      StripLit("Nothing Selected");
      Ct("gray", [Lit("Nothing Selected")])
    else
      var parts := seq(|sel|, i requires 0 <= i < |sel| => Ct("red", [Lit(sel[i].caption.GetOr(""))]));
      var labels := seq(|sel|, i requires 0 <= i < |sel| => Lit(sel[i].caption.GetOr("")));
      StripJoin(parts, Lit(" "));
      StripLit(" ");
      forall i | 0 <= i < |sel|
        ensures StripAll(parts)[i] == labels[i]
      {
        StripLit(sel[i].caption.GetOr(""));
      }
      assert StripAll(parts) == labels;
      JoinWith(parts, Lit(" "))
  }

  // ---------------------------------------------------------------------------------------------
  // Numbering

  function Digit(d: nat): (c: char)
    requires d < 10
    ensures Prompt.IsDigit(c) && c as int - '0' as int == d
  {
    ('0' as int + d) as char
  }

  /** `String(i)` for a list index: its decimal digits. */
  function Show(n: nat): (s: string)
    ensures |s| >= 1
    ensures forall k :: 0 <= k < |s| ==> Prompt.IsDigit(s[k])
    ensures Prompt.DigitsValue(s) == n
    ensures s[0] == '0' <==> n == 0
    ensures |s| == 1 || s[0] != '0'
    ensures n == 0 ==> s == "0"
  {
    if n < 10 then [Digit(n)]
    else
      var s := Show(n / 10) + [Digit(n % 10)];
      assert s[..|s| - 1] == Show(n / 10);
      s
  }

  lemma {:induction false} DigitRunToEnd(s: string, p: nat)
    requires p <= |s|
    requires forall k :: p <= k < |s| ==> Prompt.IsDigit(s[k])
    ensures Prompt.DigitRun(s, p) == |s| - p
    decreases |s| - p
  {
    if p < |s| {
      DigitRunToEnd(s, p + 1);
    }
  }

  /** Typing `:` and the number shown in front of an option jumps to that option. */
  lemma ShownIndexJumps(n: nat)
    ensures Prompt.IndexSelector(":" + Show(n)) == Some(n)
  {
    var s := ":" + Show(n);
    DigitRunToEnd(s, 1);
    assert s[1..1 + |Show(n)|] == Show(n);
  }

  /** The gap after the number: two spaces, one from index 10 on. */
  function Spacing(i: int): string
  {
    if i > 9 then " " else "  "
  }

  /** For the indices a window can show below 100, number and gap take three columns. */
  lemma SpacingAligns(i: nat)
    requires i < 100
    ensures |Show(i)| + |Spacing(i)| == 3
  {
    if i >= 10 {
      assert Show(i) == Show(i / 10) + [Digit(i % 10)];
    }
  }

  // ---------------------------------------------------------------------------------------------
  // The window of options

  /** The first index drawn: the window of twelve ends at the cursor once the cursor passes 11. */
  function WindowStart(cursor: int): (start: nat)
    ensures cursor <= 11 ==> start == 0
    ensures cursor > 11 ==> start + 11 == cursor
  {
    if cursor - 11 > 0 then cursor - 11 else 0
  }

  /** How many of the indices `0 .. len-1` fall in the window `start .. start+11`. */
  function WindowSize(len: nat, start: nat): (n: nat)
    ensures n <= 12
    ensures start + n <= len || n == 0
  {
    if start >= len then 0 else if len - start < 12 then len - start else 12
  }

  /** The lines in front of an option: a group header (a new line, the bar and the group name) for the first
      option of a group in the window, then a new line, the bar and an indent for any option whose group is
      present and was not seen before, and nothing for a group already seen. */
  function GroupView(o: Opt, has: bool): (r: Text)
    ensures has || o.group.None? ==> r == []
    ensures !has && Grouped(o) ==>
              Strip(r) == (NL + [Sym(Bar)] + Lit(o.group.value)) + (NL + [Sym(Bar)] + Lit("  "))
    ensures !has && o.group == Some("") ==> Strip(r) == NL + [Sym(Bar)] + Lit("  ")
  {
    var g := o.group.GetOr("");
    HeaderReads(g);
    IndentReads();
    var header := if has || !Grouped(o) then [] else BarLine(Ct("bgBlue", [Ct("black", [Lit(g)])]));
    var indent := if !has && o.group.Some? then BarLine(Lit(Spaces(2))) else [];
    StripAppend(header, indent);
    header + indent
  }

  /** The group header reads as the group name on a line of its own; its colours are not read. */
  lemma HeaderReads(g: string)
    ensures Strip(BarLine(Ct("bgBlue", [Ct("black", [Lit(g)])]))) == NL + [Sym(Bar)] + Lit(g)
  {
    XAppend([Lit(g)], []);
    XAppend([Ct("black", [Lit(g)])], []);
    StripLit(g);
  }

  lemma IndentReads()
    ensures Strip(BarLine(Lit(Spaces(2)))) == NL + [Sym(Bar)] + Lit("  ")
  {
    assert Spaces(2) == "  ";
    StripLit("  ");
  }

  /** The option is focused, or it heads the list in search mode. */
  predicate IsActive(v: Prompt.View, i: int)
  {
    (i == 0 && v.mode == Prompt.Search) || (v.mode == Prompt.Explore && v.cursor == i)
  }

  function StateAt(v: Prompt.View, i: nat): OptState
    requires i < |v.filteredOptions|
  {
    VisualStateOf(Prompt.HasValue(v.selected, v.filteredOptions[i].value), IsActive(v, i))
  }

  /** The groups of the grouped options among the first `i` that fall in the window: `uniqueGroups` once
      `i` options have been walked. */
  function SeenGroups(f: seq<Opt>, start: nat, i: nat): set<string>
    requires i <= |f|
  {
    if i == 0 then {}
    else
      var seen := SeenGroups(f, start, i - 1);
      var o := f[i - 1];
      if start <= i - 1 <= start + 11 && Grouped(o) && o.group.value !in seen then seen + {o.group.value} else seen
  }

  /** Option `i` has a group that an earlier option of the window already showed: `has` in `generateOptions`. */
  predicate Has(f: seq<Opt>, start: nat, i: nat)
    requires i < |f|
  {
    Grouped(f[i]) && f[i].group.value in SeenGroups(f, start, i)
  }

  lemma {:induction false} SeenGroupsMembers(f: seq<Opt>, start: nat, i: nat, g: string)
    requires i <= |f|
    ensures g in SeenGroups(f, start, i) <==>
            exists j :: start <= j < i && j <= start + 11 && Grouped(f[j]) && f[j].group.value == g
  {
    if i > 0 {
      SeenGroupsMembers(f, start, i - 1, g);
    }
  }

  /** For an option of the window, `has` holds exactly when an earlier option of the window has the same
      non-empty group. */
  lemma HasIffEarlier(f: seq<Opt>, start: nat, i: nat)
    requires start <= i <= start + 11 && i < |f|
    ensures Has(f, start, i) <==> Grouped(f[i]) && exists j :: start <= j < i && f[j].group == f[i].group
  {
    if Grouped(f[i]) {
      SeenGroupsMembers(f, start, i, f[i].group.value);
    }
  }

  /** The line of option `i`: group view, index, colon, gap, and the option on a black background when
      focused (dimmed otherwise). It reads as the group view, the index, a colon, the gap and the option in
      its state. */
  function OptionLine(v: Prompt.View, i: nat, has: bool): (r: Text)
    requires i < |v.filteredOptions|
    ensures Strip(r) ==
              Strip(GroupView(v.filteredOptions[i], has)) + Lit(Show(i) + ":" + Spacing(i))
              + Reading(v.filteredOptions[i], StateAt(v, i))
  {
    var o := v.filteredOptions[i];
    var body := OptText(o, StateAt(v, i));
    var groupView := GroupView(o, has);
    var number := Lit(Show(i)) + Lit(":") + Lit(Spacing(i));
    var option := Pick(v.cursor == i, Ct("bgBlack", [body]), Ct("dim", [body]));
    NumberReads(i);
    StripAppend(groupView, number);
    StripAppend(groupView + number, option);
    groupView + number + option
  }

  /** The index, the colon and the gap read as one piece. */
  lemma NumberReads(i: nat)
    ensures Strip(Lit(Show(i)) + Lit(":") + Lit(Spacing(i))) == Lit(Show(i) + ":" + Spacing(i))
  {
    LitAppend(Show(i), ":");
    LitAppend(Show(i) + ":", Spacing(i));
    StripLit(Show(i) + ":" + Spacing(i));
  }

  /** The line of every option of the list, window or not. */
  function AllLines(v: Prompt.View): (r: seq<Text>)
    ensures |r| == |v.filteredOptions|
  {
    var f := v.filteredOptions;
    seq(|f|, i requires 0 <= i < |f| => OptionLine(v, i, Has(f, WindowStart(v.cursor), i)))
  }

  /** The entries of `all` among its first `i` that fall in the window from `start`, in order. */
  function Window<T>(all: seq<T>, start: nat, i: nat): (r: seq<T>)
    requires i <= |all|
    ensures |r| == WindowSize(i, start)
  {
    if i == 0 then []
    else Window(all, start, i - 1) + (if start <= i - 1 <= start + 11 then [all[i - 1]] else [])
  }

  /** The window is a slice of the entries: those from `start`, at most twelve of them, in order. */
  lemma {:induction false} WindowSlice<T>(all: seq<T>, start: nat, i: nat)
    requires i <= |all|
    ensures Window(all, start, i) == all[if start < i then start else i .. if start + 12 < i then start + 12 else i]
  {
    if i > 0 {
      WindowSlice(all, start, i - 1);
    }
  }

  lemma SeenStep(f: seq<Opt>, start: nat, i: nat)
    requires i < |f|
    ensures SeenGroups(f, start, i + 1) ==
              if start <= i <= start + 11 && Grouped(f[i]) && f[i].group.value !in SeenGroups(f, start, i)
              then SeenGroups(f, start, i) + {f[i].group.value} else SeenGroups(f, start, i)
  {
  }

  lemma WindowStep<T>(all: seq<T>, start: nat, i: nat)
    requires i < |all|
    ensures Window(all, start, i + 1) == Window(all, start, i) + (if start <= i <= start + 11 then [all[i]] else [])
  {
  }

  /** The lines of the options in the window, in list order. */
  function OptionLines(v: Prompt.View): seq<Text>
  {
    Window(AllLines(v), WindowStart(v.cursor), |v.filteredOptions|)
  }

  /** The table of every option's line, with the facts the walk needs about it: its window is the list
      `generateOptions` returns, and entry `k` is option `k`'s line given the `has` of option `k`. */
  lemma AllLinesOf(v: Prompt.View) returns (all: seq<Text>)
    ensures |all| == |v.filteredOptions|
    ensures forall k, has {:trigger OptionLine(v, k, has)} ::
              0 <= k < |all| && has == Has(v.filteredOptions, WindowStart(v.cursor), k) ==> all[k] == OptionLine(v, k, has)
  {
    all := AllLines(v);
  }

  /** A table that agrees with every option's line has the window `generateOptions` returns. */
  lemma TableWindow(v: Prompt.View, all: seq<Text>)
    requires |all| == |v.filteredOptions|
    requires forall k, has {:trigger OptionLine(v, k, has)} ::
              0 <= k < |all| && has == Has(v.filteredOptions, WindowStart(v.cursor), k) ==> all[k] == OptionLine(v, k, has)
    ensures Window(all, WindowStart(v.cursor), |all|) == OptionLines(v)
  {
    var table := AllLines(v);
    forall k | 0 <= k < |all|
      ensures all[k] == table[k]
    {
      assert table[k] == OptionLine(v, k, Has(v.filteredOptions, WindowStart(v.cursor), k));
    }
    assert all == table;
  }

  /** The body of the walk for an option of the window: its line, which is its entry in the table `all`. */
  method DrawOption(v: Prompt.View, i: nat, has: bool, ghost all: seq<Text>) returns (line: Text)
    requires i < |all| == |v.filteredOptions| && has == Has(v.filteredOptions, WindowStart(v.cursor), i)
    requires forall k, has {:trigger OptionLine(v, k, has)} ::
              0 <= k < |all| && has == Has(v.filteredOptions, WindowStart(v.cursor), k) ==> all[k] == OptionLine(v, k, has)
    ensures line == all[i]
  {
    line := OptionLine(v, i, has);
  }

  /** `generateOptions`: walks the list once, remembering the groups already drawn in a set. */
  method GenerateOptions(v: Prompt.View) returns (lines: seq<Text>)
    ensures lines == OptionLines(v)
  {
    var f := v.filteredOptions;
    var uniqueGroups: set<string> := {};
    var start := WindowStart(v.cursor);
    ghost var all := AllLinesOf(v);
    lines := [];
    var i := 0;
    while i < |f|
      invariant 0 <= i <= |f|
      invariant uniqueGroups == SeenGroups(f, start, i)
      invariant lines == Window(all, start, i)
    {
      WindowStep(all, start, i);
      SeenStep(f, start, i);
      if i < start || i > start + 11 {
        i := i + 1;
        continue;
      }
      var option := f[i];
      var has := Grouped(option) && option.group.value in uniqueGroups;
      if !has && Grouped(option) {
        uniqueGroups := uniqueGroups + {option.group.value};
      }
      var line := DrawOption(v, i, has, all);
      lines := lines + [line];
      i := i + 1;
    }
    TableWindow(v, all);
  }

  /** The window shows at most twelve options, and always the one under the cursor. */
  lemma WindowHoldsCursor(v: Prompt.View)
    ensures |OptionLines(v)| <= 12
    ensures 0 <= v.cursor < |v.filteredOptions| ==>
              var start := WindowStart(v.cursor);
              start <= v.cursor < start + |OptionLines(v)|
    ensures var start := WindowStart(v.cursor);
            var f := v.filteredOptions;
            OptionLines(v) == AllLines(v)[if start < |f| then start else |f| .. if start + 12 < |f| then start + 12 else |f|]
    ensures 0 <= v.cursor < |v.filteredOptions| ==>
              OptionLines(v)[v.cursor - WindowStart(v.cursor)] == AllLines(v)[v.cursor]
  {
    WindowSlice(AllLines(v), WindowStart(v.cursor), |v.filteredOptions|);
  }

  /** A group's header is drawn in front of its first option in the window and no other. */
  lemma HeaderOncePerGroup(f: seq<Opt>, start: nat, i: nat)
    requires start <= i <= start + 11 && i < |f| && Grouped(f[i])
    ensures (exists j :: start <= j < i && f[j].group == f[i].group) <==> GroupView(f[i], Has(f, start, i)) == []
  {
    HasIffEarlier(f, start, i);
    if !Has(f, start, i) {
      assert Strip(GroupView(f[i], false)) != [];
    }
  }

  // ---------------------------------------------------------------------------------------------
  // The frame

  /** The placeholder as written: the whole placeholder in reverse video, then the placeholder again
      without its first character, dimmed. */
  function PlaceholderAsWritten(placeholder: Option<string>): (r: Text)
    ensures placeholder.Some? && placeholder.value != "" ==> Strip(r) == Lit(placeholder.value + placeholder.value[1..])
    ensures placeholder.None? || placeholder.value == "" ==> Strip(r) == Lit("_")
  {
    if placeholder.Some? && placeholder.value != "" then
      var ph := placeholder.value;
      StripAppend(Ct("inverse", [Lit(ph)]), Ct("dim", [Lit(ph[1..])]));
      StripLit(ph);
      StripLit(ph[1..]);
      LitAppend(ph, ph[1..]);
      Ct("inverse", [Lit(ph)]) + Ct("dim", [Lit(ph[1..])])
    else
      StripLit("_");
      Paint("inverse", Paint("hidden", Lit("_")))
  }

  /** The placeholder as evidently intended: its first character in reverse video, the rest dimmed; a hidden
      underscore when there is none. */
  function Placeholder(placeholder: Option<string>): (r: Text)
    ensures placeholder.Some? && placeholder.value != "" ==> Strip(r) == Lit(placeholder.value)
    ensures placeholder.None? || placeholder.value == "" ==> Strip(r) == Lit("_")
  {
    if placeholder.Some? && placeholder.value != "" then
      var ph := placeholder.value;
      var first, rest := Lit(ph[..1]), Lit(ph[1..]);
      assert ph == ph[..1] + ph[1..];
      LitAppend(ph[..1], ph[1..]);
      StripLit(ph[..1]);
      StripLit(ph[1..]);
      assert X([first]) == first && X([rest]) == rest;
      StripAppend(Ct("inverse", [first]), Ct("dim", [rest]));
      Ct("inverse", [first]) + Ct("dim", [rest])
    else
      StripLit("_");
      Paint("inverse", Paint("hidden", Lit("_")))
  }

  /** The placeholder "ab" reads "abb" as written. */
  lemma PlaceholderAsWrittenRepeats()
    ensures Strip(PlaceholderAsWritten(Some("ab"))) == Lit("abb")
    ensures Strip(Placeholder(Some("ab"))) == Lit("ab")
  {
    assert "ab" + "ab"[1..] == "abb";
  }

  /** What the filter line shows after `Filter: `: the placeholder while the text is empty, the text with
      its cursor otherwise, nothing once the value is no longer a string. */
  function FilterValue(v: Prompt.View, placeholder: Option<string>): (r: Text)
    ensures !v.value.Str? && !v.value.Drawn? ==> r == []
    ensures (v.value.Str? || v.value.Drawn?) && !Prompt.Truthy(v.value) ==>
              Strip(r) == Lit(if placeholder.Some? && placeholder.value != "" then placeholder.value else "_")
    ensures (v.value.Str? || v.value.Drawn?) && Prompt.Truthy(v.value) && v.valueWithCursor.Drawn? ==>
              r == v.valueWithCursor.t
  {
    match v.value
    case Str(_) | Drawn(_) =>
      if !Prompt.Truthy(v.value) then Placeholder(placeholder)
      else (match v.valueWithCursor
            case Str(s) => Lit(s)
            case Drawn(t) => t
            case _ => [])
    case _ => []
  }

  /** In search mode the filter line echoes the typed text (with the cursor mark at its end), and the
      placeholder while nothing is typed. */
  lemma FilterEchoesLine(v: Prompt.View, placeholder: Option<string>, line: string, textCursor: nat)
    requires v.value == Prompt.Str(line) && v.valueWithCursor == Prompt.Drawn(Prompt.CursorView(line, textCursor))
    ensures line != "" ==> Strip(FilterValue(v, placeholder)) == Lit(line) + (if textCursor >= |line| then Lit("_") else [])
    ensures line == "" ==> FilterValue(v, placeholder) == Placeholder(placeholder)
  {
    Prompt.CursorViewReads(line, textCursor);
  }

  /** After `/` and "ab" typed with the text cursor at the end, the prompt's filter line reads the text
      and the cursor mark. */
  method TypedTextEchoes(prompt: Prompt.AutocompleteText)
    requires prompt.mode == Prompt.Explore
    modifies prompt
  {
    prompt.OnValue("/", 1);
    prompt.OnValue("ab", 2);
    var v := prompt.Snapshot();
    FilterEchoesLine(v, None, "ab", 2);
    assert Strip(FilterSection(v, None)) == Lit("? ") + Lit("Filter: ") + (Lit("ab") + Lit("_")) + NL;
  }

  /** A cyan prompt followed by a caption reads as the two, one after the other. */
  lemma {:induction false} PromptReads(ask: string, caption: string)
    ensures Strip(Ct("cyan", [Lit(ask)]) + Lit(caption)) == Lit(ask) + Lit(caption)
  {
    assert X([Lit(ask)]) == Lit(ask);
    StripLit(ask);
    StripLit(caption);
    StripAppend(Ct("cyan", [Lit(ask)]), Lit(caption));
  }

  /** `? Filter: `, then `value`, then a new line. */
  function FilterLine(value: Text): (r: Text)
    ensures Strip(r) == Lit("? ") + Lit("Filter: ") + Strip(value) + NL
  {
    var prompt := Ct("cyan", [Lit("? ")]) + Lit("Filter: ");
    PromptReads("? ", "Filter: ");
    StripAppend(prompt, value);
    StripAppend(prompt + value, NL);
    StripLit("\n");
    prompt + value + NL
  }

  /** The filter line, in search mode only. */
  function FilterSection(v: Prompt.View, placeholder: Option<string>): (r: Text)
    ensures v.mode == Prompt.Explore ==> r == []
    ensures v.mode == Prompt.Search ==> Strip(r) == Lit("? ") + Lit("Filter: ") + Strip(FilterValue(v, placeholder)) + NL
  {
    Pick(v.mode == Prompt.Search, FilterLine(FilterValue(v, placeholder)), [])
  }

  const ListSeparator: Text := BarLine(Lit("  "))

  /** "No Results" for an empty list, otherwise the window's lines, each on its own indented line. */
  function ListSection(v: Prompt.View): (r: Text)
    ensures v.filteredOptions == [] ==> Strip(r) == Lit("No Results")
    ensures v.filteredOptions != [] ==>
              Strip(r) == JoinWith(StripAll(OptionLines(v)), NL + [Sym(Bar)] + Lit("  "))
  {
    assert X([Lit("No Results")]) == Lit("No Results");
    StripLit("No Results");
    StripLit("  ");
    StripJoin(OptionLines(v), ListSeparator);
    Pick(v.filteredOptions == [], Ct("red", [Lit("No Results")]), JoinWith(OptionLines(v), ListSeparator))
  }

  const ExploreHelp: string :=
    "\U{2193}/j down \U{2022} \U{2191}/k up \U{2022} tab select \U{2022} Ctrl-C cancel \U{2022} / filter"
  const SearchHelp: string := "tab select \U{2022} ESC cancel filter \U{2022} :<number> to highlight by index"

  /** The key help text for the mode. */
  function Help(mode: Prompt.Mode): (h: string)
    ensures mode == Prompt.Search ==> h == SearchHelp
    ensures mode != Prompt.Search ==> h == ExploreHelp
  {
    if mode == Prompt.Search then SearchHelp else ExploreHelp
  }

  /** The key help for the mode, in grey. */
  function Instructions(mode: Prompt.Mode): (r: Text)
    ensures Strip(r) == Lit(Help(mode))
  {
    var help := Pick(mode == Prompt.Search, SearchHelp, ExploreHelp);
    StripLit(help);
    Paint("gray", Lit(help))
  }

  /** The first line: the selected checkbox, the title, and what is selected. */
  function SelectedLine(sel: seq<Opt>): (r: Text)
    ensures Strip(r) == [Sym(CheckboxSelected)] + Lit(" Selected Packages: ") + Strip(SelectedText(sel))
  {
    var box, title := Ct("yellow", [[Sym(CheckboxSelected)]]), Lit(" Selected Packages: ");
    assert Strip(box) == [Sym(CheckboxSelected)] by {
      assert X([[Sym(CheckboxSelected)]]) == [Sym(CheckboxSelected)];
      assert Strip([Sym(CheckboxSelected)]) == [Sym(CheckboxSelected)] + Strip([]);
    }
    StripLit(" Selected Packages: ");
    StripAppend(box, title);
    StripAppend(box + title, SelectedText(sel));
    box + title + SelectedText(sel)
  }

  /** The list line: an indent, then the list. */
  function ListLine(v: Prompt.View): (r: Text)
    ensures Strip(r) == Lit("  ") + Strip(ListSection(v))
  {
    assert Spaces(2) == "  ";
    StripLit("  ");
    StripAppend(Lit(Spaces(2)), ListSection(v));
    Lit(Spaces(2)) + ListSection(v)
  }

  lemma StripSeven(a: Text, b: Text, c: Text, d: Text, e: Text, f: Text, g: Text)
    ensures Strip(a + b + c + d + e + f + g) == Strip(a) + Strip(b) + Strip(c) + Strip(d) + Strip(e) + Strip(f) + Strip(g)
  {
    StripAppend(a, b);
    StripAppend(a + b, c);
    StripAppend(a + b + c, d);
    StripAppend(a + b + c + d, e);
    StripAppend(a + b + c + d + e, f);
    StripAppend(a + b + c + d + e + f, g);
  }

  /** The frame `render` draws around its parts: six lines that start with the bar (the selection, a gap,
      the filter line, the list, two empty ones), then the key help on a line of its own. */
  function Frame(selectedLine: Text, filter: Text, list: Text, help: Text): (r: Text)
    ensures Strip(r) ==
              (NL + [Sym(Bar)] + Strip(selectedLine))
              + (NL + [Sym(Bar)] + Lit(" "))
              + (NL + [Sym(Bar)] + Strip(filter))
              + (NL + [Sym(Bar)] + Strip(list))
              + (NL + [Sym(Bar)])
              + (NL + [Sym(Bar)])
              + (NL + Strip(help) + NL)
  {
    var l1, l2, l3, l4, l5 := BarLine(selectedLine), BarLine(Lit(Spaces(1))), BarLine(filter), BarLine(list), BarLine([]);
    var last := NL + help + NL;
    assert Strip(l2) == NL + [Sym(Bar)] + Lit(" ") by {
      assert Spaces(1) == " ";
      StripLit(" ");
    }
    assert Strip(l5) == NL + [Sym(Bar)] by {
      assert Strip([]) == [];
    }
    assert Strip(last) == NL + Strip(help) + NL by {
      StripLit("\n");
      StripAppend(NL, help);
      StripAppend(NL + help, NL);
    }
    StripSeven(l1, l2, l3, l4, l5, l5, last);
    l1 + l2 + l3 + l4 + l5 + l5 + last
  }

  /** `render`: the frame around the selected line, the filter section, the list line and the key help. */
  function Render(v: Prompt.View, placeholder: Option<string>): (r: Text)
    ensures Strip(r) ==
              (NL + [Sym(Bar)] + ([Sym(CheckboxSelected)] + Lit(" Selected Packages: ") + Strip(SelectedText(v.selected))))
              + (NL + [Sym(Bar)] + Lit(" "))
              + (NL + [Sym(Bar)] + Strip(FilterSection(v, placeholder)))
              + (NL + [Sym(Bar)] + (Lit("  ") + Strip(ListSection(v))))
              + (NL + [Sym(Bar)])
              + (NL + [Sym(Bar)])
              + (NL + Lit(Help(v.mode)) + NL)
  {
    Frame(SelectedLine(v.selected), FilterSection(v, placeholder), ListLine(v), Instructions(v.mode))
  }
}
