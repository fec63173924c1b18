/** The state machine of the autocomplete prompt: class `AutocompleteText` and its handlers
    (packages/core/src/components/autocomplete/autocomplete.ts). */
module Prompt {
  import opened Wrappers
  import opened Seqs
  import opened Builder
  import opened Matching

  datatype Mode = Explore | Search

  /** The prompt's `state`, owned by the base prompt; the handlers modelled here only set `Error`. */
  datatype PromptState = Initial | Active | Cancel | Submit | Error

  /** A value of the untyped fields `value` and `valueWithCursor`: a plain string, a string carrying
      colour tags, a list of options, or `undefined`. */
  datatype Value = Str(s: string) | Drawn(t: Text) | Items(items: seq<Opt>) | Undefined

  /** JavaScript truthiness of a value: the empty string and `undefined` are falsy, an array never is. */
  predicate Truthy(v: Value)
  {
    match v
    case Str(s) => s != ""
    case Drawn(t) => t != []
    case Items(_) => true
    case Undefined => false
  }

  /** The characters of a text, without its tags and symbols. */
  function Chars(t: Text): string
  {
    if t == [] then "" else (if t[0].Ch? then [t[0].c] else "") + Chars(t[1..])
  }

  /** `typeof this.value === "string" ? this.value : ""`. */
  function QueryOf(v: Value): string
  {
    match v
    case Str(s) => s
    case Drawn(t) => Chars(t)
    case _ => ""
  }

  /** The outcome of a handler: it ran to the end, or it threw a `TypeError`. */
  datatype Handled = Done | TypeError

  /** The key names that browse the list in explore mode. */
  const Aliases: map<string, string> := map["k" := "up", "j" := "down", "h" := "left", "l" := "right"]

  predicate EndsWith(s: string, c: char)
  {
    |s| > 0 && s[|s| - 1] == c
  }

  // ---------------------------------------------------------------------------------------------
  // Cursor moves

  /** `left`/`up`: one step back, wrapping from the first entry to the last. */
  function CursorUp(cursor: int, length: int): (r: int)
    ensures 0 <= cursor < length ==> 0 <= r < length && (r + 1) % length == cursor
  {
    if cursor == 0 then length - 1 else cursor - 1
  }

  /** `down`/`right`: one step forward, wrapping from the last entry to the first. */
  function CursorDown(cursor: int, length: int): (r: int)
    ensures 0 <= cursor < length ==> 0 <= r < length && r == (cursor + 1) % length
  {
    if cursor == length - 1 then 0 else cursor + 1
  }

  /** The cursor handler's move for a key name; other keys leave the cursor where it is. */
  function MoveCursor(key: string, cursor: int, length: int): (r: int)
    ensures 0 <= cursor < length ==> 0 <= r < length
    ensures (key == "left" || key == "up") && 0 <= cursor < length ==> (r + 1) % length == cursor
    ensures (key == "down" || key == "right") && 0 <= cursor < length ==> r == (cursor + 1) % length
    ensures key != "left" && key != "up" && key != "down" && key != "right" ==> r == cursor
  {
    if key == "left" || key == "up" then CursorUp(cursor, length)
    else if key == "down" || key == "right" then CursorDown(cursor, length)
    else cursor
  }

  /** A step down undoes a step up and the other way round. */
  lemma CursorMovesUndo(cursor: int, length: int)
    requires 0 <= cursor < length
    ensures CursorDown(CursorUp(cursor, length), length) == cursor
    ensures CursorUp(CursorDown(cursor, length), length) == cursor
  {
  }

  /** On an empty list the moves are not guarded: up from 0 gives -1 and down gives 1. */
  lemma CursorOnEmptyList()
    ensures CursorUp(0, 0) == -1 && CursorDown(0, 0) == 1
  {
  }

  // ---------------------------------------------------------------------------------------------
  // Selection

  /** Some entry of `sel` has the value `v` (`sel.find((o) => o.value === v) !== undefined`). */
  predicate HasValue(sel: seq<Opt>, v: string)
  {
    exists o :: o in sel && o.value == v
  }

  /** `toggleValue` on option `o`: when an entry has its value, every such entry goes; otherwise `o` is
      appended. */
  function Toggle(sel: seq<Opt>, o: Opt): (r: seq<Opt>)
    ensures HasValue(r, o.value) <==> !HasValue(sel, o.value)
    ensures forall x: Opt :: x.value != o.value ==> (x in r <==> x in sel)
    ensures forall x: Opt :: x.value != o.value ==> multiset(r)[x] == multiset(sel)[x]
    ensures !HasValue(sel, o.value) ==> r == sel + [o]
    ensures HasValue(sel, o.value) ==> IsSubseq(r, sel)
  {
    if HasValue(sel, o.value) then
      FilterMembership(sel, (x: Opt) => x.value != o.value);
      FilterMultiset(sel, (x: Opt) => x.value != o.value);
      FilterIsSubseq(sel, (x: Opt) => x.value != o.value);
      Filter(sel, (x: Opt) => x.value != o.value)
    else
      assert o in sel + [o];
      sel + [o]
  }

  /** Toggling an option whose value is not selected, twice, gives back the selection. */
  lemma ToggleTwice(sel: seq<Opt>, o: Opt)
    requires !HasValue(sel, o.value)
    ensures Toggle(Toggle(sel, o), o) == sel
  {
    var keep := (x: Opt) => x.value != o.value;
    assert o in sel + [o];
    FilterAppend(sel, [o], keep);
    FilterAll(sel, keep);
    assert Filter([o], keep) == [];
  }

  /** The tab key as evidently intended: the focused option is toggled by value; with no focused option
      (an empty list, or a cursor outside the list) the selection stays as it is. */
  function TabToggle(sel: seq<Opt>, filtered: seq<Opt>, cursor: int): (r: seq<Opt>)
    ensures !(0 <= cursor < |filtered|) ==> r == sel
    ensures 0 <= cursor < |filtered| ==>
              (HasValue(r, filtered[cursor].value) <==> !HasValue(sel, filtered[cursor].value))
    ensures 0 <= cursor < |filtered| ==>
              forall x: Opt :: x.value != filtered[cursor].value ==> multiset(r)[x] == multiset(sel)[x]
    ensures 0 <= cursor < |filtered| && !HasValue(sel, filtered[cursor].value) ==> r == sel + [filtered[cursor]]
    ensures 0 <= cursor < |filtered| && HasValue(sel, filtered[cursor].value) ==> IsSubseq(r, sel)
  {
    if 0 <= cursor < |filtered| then Toggle(sel, filtered[cursor]) else sel
  }

  lemma TabToggleTwice(sel: seq<Opt>, filtered: seq<Opt>, cursor: int)
    requires 0 <= cursor < |filtered| && !HasValue(sel, filtered[cursor].value)
    ensures TabToggle(TabToggle(sel, filtered, cursor), filtered, cursor) == sel
  {
    ToggleTwice(sel, filtered[cursor]);
  }

  /** `e?.value`: `None` stands for `undefined`. */
  function ValueOf(e: Option<Opt>): Option<string>
  {
    if e.Some? then Some(e.value.value) else None
  }

  /** `a === b` on option objects: the same object, or both `undefined`. */
  predicate SameObject(a: Option<Opt>, b: Option<Opt>)
  {
    (a.None? && b.None?) || (a.Some? && b.Some? && a.value.ref == b.value.ref)
  }

  /** `sel.find((v) => v?.value === target)`: the first such element, which may itself be `undefined`. */
  function FindByValue(sel: seq<Option<Opt>>, target: Option<string>): Option<Option<Opt>>
  {
    if sel == [] then None
    else if ValueOf(sel[0]) == target then Some(sel[0])
    else FindByValue(sel[1..], target)
  }

  /** `find` by value gives an entry exactly when one has the value, and the entry it gives has it. */
  lemma {:induction false} FindByValueFinds(sel: seq<Option<Opt>>, target: Option<string>)
    ensures FindByValue(sel, target).Some? <==> exists e :: e in sel && ValueOf(e) == target
    ensures FindByValue(sel, target).Some? ==> ValueOf(FindByValue(sel, target).value) == target
  {
    if sel != [] {
      FindByValueFinds(sel[1..], target);
      assert forall e :: e in sel <==> e == sel[0] || e in sel[1..];
    }
  }

  /** The test `v !== focused` of the removal by reference. */
  function Other(focused: Option<Opt>): (r: Option<Opt> -> bool)
    ensures forall v :: r(v) <==> !SameObject(v, focused)
  {
    v => !SameObject(v, focused)
  }

  /** `filteredOptions[cursor]`: `undefined` outside the list. */
  function Focused(filtered: seq<Opt>, cursor: int): (r: Option<Opt>)
    ensures r.Some? <==> 0 <= cursor < |filtered|
    ensures r.Some? ==> r.value == filtered[cursor]
  {
    if 0 <= cursor < |filtered| then Some(filtered[cursor]) else None
  }

  /** The tab key as written: membership by value, removal by reference (`v !== focusedOption`), and an
      out-of-range cursor on a non-empty list appends `undefined`. */
  function TabAsWritten(sel: seq<Option<Opt>>, filtered: seq<Opt>, cursor: int): (r: seq<Option<Opt>>)
    ensures !(0 <= cursor < |filtered|) && |filtered| > 0 ==> r == sel + [None]
    ensures 0 <= cursor < |filtered| && (forall e :: e in sel ==> ValueOf(e) != Some(filtered[cursor].value)) ==>
              r == sel + [Some(filtered[cursor])]
    ensures 0 <= cursor < |filtered| && (exists e :: e in sel && ValueOf(e) == Some(filtered[cursor].value)) ==>
              forall e :: e in r <==> e in sel && !SameObject(e, Some(filtered[cursor]))
    ensures 0 <= cursor < |filtered| && (exists e :: e in sel && ValueOf(e) == Some(filtered[cursor].value)) ==>
              IsSubseq(r, sel) && forall e :: !SameObject(e, Some(filtered[cursor])) ==> multiset(r)[e] == multiset(sel)[e]
  {
    var focused := Focused(filtered, cursor);
    var found := FindByValue(sel, ValueOf(focused));
    FindByValueFinds(sel, ValueOf(focused));
    if found.Some? && found.value.Some? then
      RemovedByReference(sel, filtered, cursor);
      Filter(sel, Other(focused))
    else if |filtered| == 0 then sel
    else sel + [focused]
  }

  /** Removing the focused option by reference keeps exactly the entries that are other objects, in
      order and with all their copies. */
  lemma RemovedByReference(sel: seq<Option<Opt>>, filtered: seq<Opt>, cursor: int)
    requires 0 <= cursor < |filtered|
    ensures forall e :: e in Filter(sel, Other(Focused(filtered, cursor))) <==>
                        e in sel && !SameObject(e, Some(filtered[cursor]))
    ensures IsSubseq(Filter(sel, Other(Focused(filtered, cursor))), sel)
    ensures forall e :: !SameObject(e, Some(filtered[cursor])) ==>
                        multiset(Filter(sel, Other(Focused(filtered, cursor))))[e] == multiset(sel)[e]
  {
    FilterMembership(sel, Other(Focused(filtered, cursor)));
    FilterIsSubseq(sel, Other(Focused(filtered, cursor)));
    FilterMultiset(sel, Other(Focused(filtered, cursor)));
  }

  /** Two objects with the same value: the selected one is found by value but not removed by reference,
      so tab leaves the selection as it is, where the value toggle empties it. */
  lemma TabAsWrittenKeepsEqualValuedEntry()
    ensures var a := Opt(1, "x", None, None, None);
            var b := Opt(2, "x", None, None, None);
            TabAsWritten([Some(a)], [b], 0) == [Some(a)] && TabToggle([a], [b], 0) == []
  {
    var a := Opt(1, "x", None, None, None);
    var b := Opt(2, "x", None, None, None);
    assert Filter([Some(a)], Other(Some(b))) == [Some(a)];
    assert Filter([a], (x: Opt) => x.value != b.value) == [];
  }

  /** A cursor outside a one-entry list (reachable through an index jump): tab appends `undefined`. */
  lemma TabAsWrittenAppendsUndefined(sel: seq<Opt>)
    ensures var a := Opt(1, "x", None, None, None);
            TabAsWritten([], [a], 5) == [None] && TabToggle(sel, [a], 5) == sel
  {
  }

  /** As written, tab on an empty list keeps the selection, whatever it holds: looking for `undefined`
      finds at most an `undefined` entry, which does not count as selected. */
  lemma TabAsWrittenEmptyList(sel: seq<Option<Opt>>, cursor: int)
    ensures TabAsWritten(sel, [], cursor) == sel
  {
    FindByValueFinds(sel, None);
  }

  // ---------------------------------------------------------------------------------------------
  // Text edits in search mode

  /** `valueWithCursor` as written: the text before the cursor, then the whole rest in reverse video, then
      the rest again without its first character. */
  function CursorViewAsWritten(line: string, textCursor: nat): (r: Text)
    ensures Strip(r) == Lit(line) + (if textCursor >= |line| then Lit("_") else Lit(line[textCursor + 1..]))
  {
    if textCursor >= |line| then
      CursorAtEndReads(line);
      Lit(line) + Paint("inverse", Paint("hidden", Lit("_")))
    else
      var before, rest := line[..textCursor], line[textCursor..];
      assert before + rest == line && rest[1..] == line[textCursor + 1..];
      HighlightReads(before, rest, rest[1..]);
      LitAppend(line, rest[1..]);
      Lit(before) + Paint("inverse", Lit(rest)) + Lit(rest[1..])
  }

  /** The line followed by a hidden underscore in reverse video reads as the line and an underscore. */
  lemma CursorAtEndReads(line: string)
    ensures Strip(Lit(line) + Paint("inverse", Paint("hidden", Lit("_")))) == Lit(line) + Lit("_")
  {
    StripAppend(Lit(line), Paint("inverse", Paint("hidden", Lit("_"))));
    StripLit(line);
    StripLit("_");
  }

  /** `valueWithCursor` as evidently intended: the line with the character under the text cursor in reverse
      video, or a hidden underscore after it when the cursor is at the end. */
  function CursorView(line: string, textCursor: nat): Text
  {
    if textCursor >= |line| then Lit(line) + Paint("inverse", Paint("hidden", Lit("_")))
    else
      var s1, s2 := line[..textCursor], line[textCursor..];
      Lit(s1) + Paint("inverse", Lit(s2[..1])) + Lit(s2[1..])
  }

  /** Text with one piece in reverse video reads as the three pieces in a row. */
  lemma {:induction false} HighlightReads(before: string, at: string, after: string)
    ensures Strip(Lit(before) + Paint("inverse", Lit(at)) + Lit(after)) == Lit(before + at + after)
  {
    LitAppend(before, at);
    LitAppend(before + at, after);
    StripAppend(Lit(before), Paint("inverse", Lit(at)));
    StripAppend(Lit(before) + Paint("inverse", Lit(at)), Lit(after));
    StripLit(before);
    StripLit(at);
    StripLit(after);
  }

  /** Cutting a line before and after the character at `k` and gluing the pieces back gives the line. */
  lemma SplitAround(line: string, k: nat)
    requires k < |line|
    ensures line[..k] + line[k..][..1] + line[k..][1..] == line
  {
    assert line[k..][..1] + line[k..][1..] == line[k..];
    assert line[..k] + line[k..] == line;
  }

  /** The cursor view reads as the line, followed by an underscore when the cursor is at the end. */
  lemma CursorViewReads(line: string, textCursor: nat)
    ensures Strip(CursorView(line, textCursor)) == Lit(line) + (if textCursor >= |line| then Lit("_") else [])
  {
    if textCursor >= |line| {
      CursorAtEndReads(line);
    } else {
      var s1, s2 := line[..textCursor], line[textCursor..];
      SplitAround(line, textCursor);
      HighlightReads(s1, s2[..1], s2[1..]);
    }
  }

  /** With the cursor on "b" of "abc", the code as written shows "abcc". */
  lemma CursorViewAsWrittenRepeats()
    ensures Strip(CursorViewAsWritten("abc", 1)) == Lit("abcc")
    ensures Strip(CursorView("abc", 1)) == Lit("abc")
  {
    CursorViewReads("abc", 1);
    LitAppend("abc", "c");
    assert "abc"[2..] == "c" && "abc" + "c" == "abcc";
  }

  predicate IsDigit(c: char)
  {
    '0' <= c <= '9'
  }

  /** The length of the longest run of digits starting at `p` (a greedy `\d+`). */
  function DigitRun(s: string, p: nat): (n: nat)
    requires p <= |s|
    ensures p + n <= |s|
    ensures forall k :: p <= k < p + n ==> IsDigit(s[k])
    ensures p + n == |s| || !IsDigit(s[p + n])
    decreases |s| - p
  {
    if p < |s| && IsDigit(s[p]) then 1 + DigitRun(s, p + 1) else 0
  }

  /** `Number(digits)` for a string of decimal digits. */
  function DigitsValue(ds: string): nat
  {
    if ds == [] then 0
    else DigitsValue(ds[..|ds| - 1]) * 10 + (if IsDigit(ds[|ds| - 1]) then ds[|ds| - 1] as int - '0' as int else 0)
  }

  /** `value.match(/:(\d+)/)`, from position `p` on: the number after the leftmost `:` followed by a digit. */
  function IndexSelectorFrom(s: string, p: nat): Option<nat>
    requires p <= |s|
    decreases |s| - p
  {
    if p == |s| then None
    else if s[p] == ':' && DigitRun(s, p + 1) > 0 then Some(DigitsValue(s[p + 1..p + 1 + DigitRun(s, p + 1)]))
    else IndexSelectorFrom(s, p + 1)
  }

  /** `value.match(/:(\d+)/)`: present exactly when a `:` is followed by a digit somewhere in the text. */
  function IndexSelector(s: string): (r: Option<nat>)
    ensures r.Some? <==> exists k :: 0 <= k && k + 1 < |s| && s[k] == ':' && IsDigit(s[k + 1])
  {
    IndexSelectorFromFinds(s, 0);
    IndexSelectorFrom(s, 0)
  }

  /** Some `:` in `s[p..]` is directly followed by a digit. */
  predicate ColonDigit(s: string, p: nat)
  {
    exists k :: p <= k && k + 1 < |s| && s[k] == ':' && IsDigit(s[k + 1])
  }

  lemma {:induction false} IndexSelectorFromFinds(s: string, p: nat)
    requires p <= |s|
    ensures IndexSelectorFrom(s, p).Some? <==> ColonDigit(s, p)
    decreases |s| - p
  {
    if p < |s| {
      IndexSelectorFromFinds(s, p + 1);
      if s[p] == ':' && DigitRun(s, p + 1) > 0 {
        assert IsDigit(s[p + 1]);
      } else if ColonDigit(s, p) {
        var k :| p <= k && k + 1 < |s| && s[k] == ':' && IsDigit(s[k + 1]);
        if k != p {
          assert ColonDigit(s, p + 1);
        }
      }
    }
  }

  /** Before the first `:` that a digit follows, the search moves on. */
  lemma {:induction false} IndexSelectorSkips(s: string, p: nat, k: nat)
    requires p <= k < |s|
    requires forall j :: p <= j < k ==> !(s[j] == ':' && IsDigit(s[j + 1]))
    ensures IndexSelectorFrom(s, p) == IndexSelectorFrom(s, k)
    decreases k - p
  {
    if p < k {
      assert !(s[p] == ':' && DigitRun(s, p + 1) > 0);
      IndexSelectorSkips(s, p + 1, k);
    }
  }

  /** The index is the decimal value of the whole run of digits after the first `:` that a digit follows. */
  lemma IndexSelectorValue(s: string, k: nat, e: nat)
    requires k + 1 < e <= |s| && s[k] == ':'
    requires forall i :: k < i < e ==> IsDigit(s[i])
    requires e == |s| || !IsDigit(s[e])
    requires forall j :: 0 <= j < k ==> !(s[j] == ':' && IsDigit(s[j + 1]))
    ensures IndexSelector(s) == Some(DigitsValue(s[k + 1..e]))
  {
    IndexSelectorSkips(s, 0, k);
  }

  /** The list a trailing `:` shows: the options filtered by the text before it (not lowercased), or all of
      them when that text is empty, sorted by group. */
  function StagingView(options: seq<Opt>, line: string): seq<Opt>
    requires |line| > 0
  {
    var tillSelector := line[..|line| - 1];
    if |tillSelector| > 0 then SortByGroup(Matching.Search(options, tillSelector)) else SortByGroup(options)
  }

  /** The empty-text branch of the staging view is the search with an empty query. */
  lemma StagingIsSearch(options: seq<Opt>, line: string)
    requires |line| > 0
    ensures StagingView(options, line) == SortByGroup(Matching.Search(options, line[..|line| - 1]))
    ensures multiset(StagingView(options, line)) <= multiset(options)
  {
    var till := line[..|line| - 1];
    SubseqMultiset(Matching.Search(options, till), options);
  }

  lemma {:induction false} SubseqMultiset<T>(a: seq<T>, b: seq<T>)
    requires IsSubseq(a, b)
    ensures multiset(a) <= multiset(b)
    decreases |b|
  {
    if a != [] && b != [] {
      assert b == [b[0]] + b[1..];
      if a[0] == b[0] && IsSubseq(a[1..], b[1..]) {
        SubseqMultiset(a[1..], b[1..]);
        assert a == [a[0]] + a[1..];
      } else {
        SubseqMultiset(a, b[1..]);
      }
    }
  }

  /** What `toggleValue` leaves behind: whether it threw, and the selection, whose entries may be `undefined`. */
  datatype Toggled = Toggled(outcome: Handled, selection: seq<Option<Opt>>)

  /** A selection of options, as entries that are all defined. */
  function Lift(sel: seq<Opt>): (r: seq<Option<Opt>>)
    ensures |r| == |sel| && None !in r
  {
    seq(|sel|, i requires 0 <= i < |sel| => Some(sel[i]))
  }

  /** The entries of a selection that holds no `undefined`, as options. */
  function Defined(sel: seq<Option<Opt>>): (r: seq<Opt>)
    requires None !in sel
    ensures Lift(r) == sel
  {
    var r := seq(|sel|, i requires 0 <= i < |sel| => assert sel[i] in sel; sel[i].value);
    assert forall i :: 0 <= i < |sel| ==> Lift(r)[i] == sel[i];
    r
  }

  /** How `find` with a callback that reads `v.value` and `target.value` ends. */
  datatype Lookup = Threw | Hit | Miss

  /** `sel.find((v) => v.value === target.value)`: the callback runs on each entry in order until it
      answers true, and reading `.value` of `undefined` (the entry or the target) throws. */
  function FindStrict(sel: seq<Option<Opt>>, target: Option<Opt>): Lookup
  {
    if sel == [] then Miss
    else if sel[0].None? || target.None? then Threw
    else if sel[0].value.value == target.value.value then Hit
    else FindStrict(sel[1..], target)
  }

  /** `find` throws on any non-empty selection when the target is `undefined`, and otherwise when it
      meets an `undefined` entry before a hit; without `undefined` entries it hits exactly when some
      entry has the target's value. */
  lemma {:induction false} FindStrictOutcome(sel: seq<Option<Opt>>, target: Option<Opt>)
    ensures target.None? ==> (FindStrict(sel, target) == Threw <==> sel != [])
    ensures target.Some? && None !in sel ==> FindStrict(sel, target) != Threw
    ensures target.Some? && None !in sel ==>
              (FindStrict(sel, target) == Hit <==> HasValue(Defined(sel), target.value.value))
    ensures FindStrict(sel, target) == Miss ==> None !in sel
  {
    if sel != [] {
      FindStrictOutcome(sel[1..], target);
      assert forall e :: e in sel <==> e == sel[0] || e in sel[1..];
    }
    if sel != [] && target.Some? && None !in sel {
      assert sel[0] in sel;
      var d, rest := Defined(sel), Defined(sel[1..]);
      assert d == [sel[0].value] + rest;
      assert forall o :: o in d <==> o == sel[0].value || o in rest;
    }
  }

  /** `toggleValue` as written, on a selection whose entries may be `undefined` (tab can append one).
      `filteredOptions[cursor]` is `undefined` outside the list. `find` reads the values it compares, and
      so does the removal `filter`, which visits every entry: a read on `undefined` throws. */
  function ToggleAsWritten(sel: seq<Option<Opt>>, filtered: seq<Opt>, cursor: int): (r: Toggled)
    ensures r.outcome == TypeError <==>
              (!(0 <= cursor < |filtered|) && sel != []) || (0 <= cursor < |filtered| && None in sel)
    ensures r.outcome == TypeError ==> r.selection == sel
    ensures !(0 <= cursor < |filtered|) && sel == [] ==> r.selection == [None]
    ensures 0 <= cursor < |filtered| && None !in sel ==> r.selection == Lift(Toggle(Defined(sel), filtered[cursor]))
  {
    var focused := Focused(filtered, cursor);
    FindStrictOutcome(sel, focused);
    match FindStrict(sel, focused)
    case Threw => Toggled(TypeError, sel)
    case Miss =>
      if focused.Some? && None !in sel then
        LiftAppend(Defined(sel), focused.value);
        Toggled(Done, sel + [focused])
      else Toggled(Done, sel + [focused])
    case Hit =>
      if None in sel then Toggled(TypeError, sel)
      else Toggled(Done, Lift(Toggle(Defined(sel), focused.value)))
  }

  lemma LiftAppend(sel: seq<Opt>, o: Opt)
    ensures Lift(sel + [o]) == Lift(sel) + [Some(o)]
  {
  }

  /** On an empty list (a filter without results) or with the cursor past a one-option list, the code as
      written turns an empty selection into one `undefined` entry; a later toggle on an option of the list
      then throws on that entry. */
  lemma ToggleAsWrittenAppendsUndefined()
    ensures ToggleAsWritten([], [], 0) == Toggled(Done, [None])
    ensures ToggleAsWritten([], [Opt(1, "x", None, None, None)], 5) == Toggled(Done, [None])
    ensures ToggleAsWritten([None], [Opt(1, "x", None, None, None)], 0) == Toggled(TypeError, [None])
  {
  }

  /** What the renderer reads of the prompt. */
  datatype View = View(mode: Mode, value: Value, valueWithCursor: Value, cursor: int,
                       filteredOptions: seq<Opt>, selected: seq<Opt>)

  /** The prompt object. The base prompt class stores the typed line in `value` before it emits the
      value event and reports the text cursor; both are parameters of the handlers here. */
  class AutocompleteText {
    var options: seq<Opt>
    var filteredOptions: seq<Opt>
    var selected: seq<Opt>
    var cursor: int
    var mode: Mode
    var value: Value
    var valueWithCursor: Value
    var state: PromptState

    /** The fields set by the constructor; `first` and `second` are what the two calls of the options thunk
        return, which need not be the same objects. */
    constructor (first: seq<Opt>, second: seq<Opt>)
      ensures options == first && filteredOptions == second && selected == []
      ensures cursor == 0 && mode == Explore && value == Items(first)
      ensures valueWithCursor == Str("") && state == Initial
    {
      options := first;
      filteredOptions := second;
      selected := [];
      cursor := 0;
      mode := Explore;
      value := Items(first);
      valueWithCursor := Str("");
      state := Initial;
    }

    function Snapshot(): View
      reads this
    {
      View(mode, value, valueWithCursor, cursor, filteredOptions, selected)
    }

    /** The body of the reactive effect: reload the options and filter them by the current text,
        lowercased, then sort by group; `first` and `second` are what its two calls of the options thunk
        return. */
    method Refresh(first: seq<Opt>, second: seq<Opt>)
      modifies this`options, this`filteredOptions
      ensures options == first
      ensures filteredOptions == SortByGroup(Matching.Search(second, Lower(QueryOf(value))))
      ensures multiset(filteredOptions) <= multiset(second)
    {
      options := first;
      filteredOptions := SortByGroup(Matching.Search(second, Lower(QueryOf(value))));
      SubseqMultiset(Matching.Search(second, Lower(QueryOf(value))), second);
    }

    /** The value handler, after the base prompt stored `line` in `value`. */
    method OnValue(line: string, textCursor: nat)
      modifies this`value, this`mode, this`valueWithCursor, this`filteredOptions, this`cursor, this`state
      ensures selected == old(selected) && options == old(options)
      ensures old(mode) == Explore && EndsWith(line, '/') ==>
                value == Str("") && mode == Search &&
                unchanged(this`valueWithCursor, this`filteredOptions, this`cursor, this`state)
      ensures old(mode) == Explore && !EndsWith(line, '/') ==>
                value == Str(line) && unchanged(this`mode, this`valueWithCursor, this`filteredOptions, this`cursor, this`state)
      ensures old(mode) == Search ==>
                value == Str(line) && mode == Search && valueWithCursor == Drawn(CursorView(line, textCursor))
      ensures old(mode) == Search && EndsWith(line, ':') ==>
                filteredOptions == StagingView(options, line) && unchanged(this`cursor, this`state)
      ensures old(mode) == Search && !EndsWith(line, ':') && IndexSelector(line).Some? ==>
                filteredOptions == old(filteredOptions) &&
                var index := IndexSelector(line).value;
                if |filteredOptions| > 1 && index > |filteredOptions| - 1
                then state == Error && cursor == old(cursor)
                else state == old(state) && cursor == index
      ensures old(mode) == Search && !EndsWith(line, ':') && IndexSelector(line).None? ==>
                filteredOptions == SortByGroup(Matching.Search(options, Lower(line))) && state == old(state) &&
                cursor == (if |filteredOptions| != |old(filteredOptions)| then 0 else old(cursor))
    {
      value := Str(line);
      if EndsWith(line, '/') && mode == Explore {
        value := Str("");
        mode := Search;
        return;
      }
      if mode == Explore {
        return;
      }
      OnSearchValue(line, textCursor);
    }

    /** The rest of the value handler in search mode: draw the cursor, then a trailing `:` shows the staging
        view, an index after the colon moves the cursor (or raises the error state when it is past the end
        of a list of two or more), and any other text filters the options. */
    method OnSearchValue(line: string, textCursor: nat)
      requires mode == Search
      modifies this`valueWithCursor, this`filteredOptions, this`cursor, this`state
      ensures valueWithCursor == Drawn(CursorView(line, textCursor))
      ensures EndsWith(line, ':') ==>
                filteredOptions == StagingView(options, line) && unchanged(this`cursor, this`state)
      ensures !EndsWith(line, ':') && IndexSelector(line).Some? ==>
                filteredOptions == old(filteredOptions) &&
                var index := IndexSelector(line).value;
                if |filteredOptions| > 1 && index > |filteredOptions| - 1
                then state == Error && cursor == old(cursor)
                else state == old(state) && cursor == index
      ensures !EndsWith(line, ':') && IndexSelector(line).None? ==>
                filteredOptions == SortByGroup(Matching.Search(options, Lower(line))) && state == old(state) &&
                cursor == (if |filteredOptions| != |old(filteredOptions)| then 0 else old(cursor))
    {
      valueWithCursor := Drawn(CursorView(line, textCursor));
      var indexSelector := IndexSelector(line);
      if EndsWith(line, ':') {
        var tillSelector := line[..|line| - 1];
        if |tillSelector| > 0 {
          filteredOptions := SortByGroup(Matching.Search(options, tillSelector));
        } else {
          filteredOptions := SortByGroup(options);
        }
        return;
      }
      if indexSelector.Some? {
        var index := indexSelector.value;
        if |filteredOptions| > 1 && index > |filteredOptions| - 1 {
          state := Error;
          return;
        }
        cursor := index;
        return;
      }
      var before := |filteredOptions|;
      filteredOptions := SortByGroup(Matching.Search(options, Lower(line)));
      var after := |filteredOptions|;
      if before != after {
        cursor := 0;
      }
    }

    /** `toggleValue`: toggles the option under the cursor. Outside the list there is no such option, and
        reading its value throws as soon as `find` calls back, that is on a non-empty selection; on an empty
        selection the selection stays empty (where the code appends `undefined`). */
    method ToggleValue() returns (h: Handled)
      modifies this`selected
      ensures h == TypeError <==> !(0 <= cursor < |filteredOptions|) && old(selected) != []
      ensures h == ToggleAsWritten(Lift(old(selected)), filteredOptions, cursor).outcome
      ensures 0 <= cursor < |filteredOptions| ==> selected == Toggle(old(selected), filteredOptions[cursor])
      ensures !(0 <= cursor < |filteredOptions|) ==> selected == old(selected)
    {
      if 0 <= cursor < |filteredOptions| {
        selected := Toggle(selected, filteredOptions[cursor]);
        h := Done;
      } else if selected == [] {
        h := Done;
      } else {
        h := TypeError;
      }
    }

    /** The cursor handler. */
    method OnCursor(key: string) returns (h: Handled)
      modifies this`cursor, this`selected
      ensures key != "tab" ==> h == Done && selected == old(selected)
      ensures cursor == (if mode == Explore && key == "/" then old(cursor) else MoveCursor(key, old(cursor), |filteredOptions|))
      ensures key == "tab" ==> (h == TypeError <==> !(0 <= cursor < |filteredOptions|) && old(selected) != [])
      ensures key == "tab" && 0 <= cursor < |filteredOptions| ==> selected == Toggle(old(selected), filteredOptions[cursor])
      ensures key == "tab" && !(0 <= cursor < |filteredOptions|) ==> selected == old(selected)
      ensures 0 <= old(cursor) < |filteredOptions| ==> 0 <= cursor < |filteredOptions|
    {
      h := Done;
      if mode == Explore && key == "/" {
        return;
      }
      if key == "left" || key == "up" {
        cursor := CursorUp(cursor, |filteredOptions|);
      } else if key == "down" || key == "right" {
        cursor := CursorDown(cursor, |filteredOptions|);
      } else if key == "tab" {
        h := ToggleValue();
      }
    }

    /** The raw key-press listener: `k`/`j`/`h`/`l` browse in explore mode, tab toggles the focused option,
        escape leaves search mode. */
    method CustomKeyPress(name: Option<string>)
      modifies this`cursor, this`selected, this`mode
      ensures cursor == (if old(mode) == Explore && name.Some? && name.value in Aliases
                         then MoveCursor(Aliases[name.value], old(cursor), |filteredOptions|) else old(cursor))
      ensures selected == (if name == Some("tab") then TabToggle(old(selected), filteredOptions, cursor) else old(selected))
      ensures mode == (if name == Some("escape") then Explore else old(mode))
    {
      if mode == Explore && name.Some? && name.value in Aliases {
        var _ := OnCursor(Aliases[name.value]);
      }
      if name == Some("tab") {
        selected := TabToggle(selected, filteredOptions, cursor);
      } else if name == Some("escape") {
        if mode == Search {
          mode := Explore;
        }
      }
    }

    /** The finalize handler: an empty text falls back to the default, the text goes to `valueWithCursor`
        and the selection becomes the prompt's value. */
    method Finalize(defaultValue: Value)
      modifies this`value, this`valueWithCursor
      ensures valueWithCursor == (if Truthy(old(value)) then old(value) else defaultValue)
      ensures value == Items(selected)
    {
      if !Truthy(value) {
        value := defaultValue;
      }
      valueWithCursor := value;
      value := Items(selected);
    }
  }

  /** The query "a" hides the option "b". */
  lemma QueryHidesOther(a: Opt, b: Opt)
    requires a == Opt(1, "a", None, None, None) && b == Opt(2, "b", None, None, None)
    ensures b !in SortByGroup(Matching.Search([a, b], Lower("a")))
    ensures IndexSelector("a").None?
  {
    assert Lower("a") == "a";
    ParseGroupIffSlashAfterWord("a");
    assert Lower(Display(b)) == "b";
    assert !IsSubseq("a", "b") by {
      assert !IsSubseq("a", "b"[1..]);
    }
    SearchLiteralQuery([a, b], "a", b);
    var r := Matching.Search([a, b], "a");
    assert b !in multiset(r);
  }

  /** Moving down and pressing tab selects the second option. */
  method TabSelectsFocused()
  {
    var a := Opt(1, "a", None, None, None);
    var b := Opt(2, "b", None, None, None);
    var prompt := new AutocompleteText([a, b], [a, b]);
    prompt.CustomKeyPress(Some("j"));
    assert prompt.cursor == 1;
    prompt.CustomKeyPress(Some("tab"));
    assert prompt.selected == [b];
  }

  /** A selection survives a filter that hides it, and finalizing returns it. */
  method SelectionSurvivesFilter(prompt: AutocompleteText)
    requires prompt.mode == Explore
    requires prompt.options == [Opt(1, "a", None, None, None), Opt(2, "b", None, None, None)]
    requires prompt.selected == [Opt(2, "b", None, None, None)]
    modifies prompt
  {
    var a := prompt.options[0];
    var b := prompt.options[1];
    prompt.OnValue("/", 1);
    assert prompt.mode == Search && prompt.options == [a, b];
    QueryHidesOther(a, b);
    assert !EndsWith("a", ':') && !EndsWith("a", '/');
    prompt.OnValue("a", 1);
    assert b !in prompt.filteredOptions;
    prompt.Finalize(Undefined);
    assert prompt.value == Items([b]);
  }

  /** The digits after the colon are read as the index. */
  lemma JumpDigits()
    ensures IndexSelector(":3") == Some(3) && IndexSelector(":9") == Some(9)
  {
    assert DigitRun(":3", 2) == 0 && DigitRun(":3", 1) == 1 && ":3"[1..2] == "3";
    assert "3"[..0] == "";
    assert DigitRun(":9", 2) == 0 && DigitRun(":9", 1) == 1 && ":9"[1..2] == "9";
    assert "9"[..0] == "";
  }

  /** On a list of five, `/` starts a search and a lone `:` shows the whole list. */
  method ColonShowsAll()
  {
    var five := [Opt(0, "a", None, None, None), Opt(1, "b", None, None, None), Opt(2, "c", None, None, None),
                 Opt(3, "d", None, None, None), Opt(4, "e", None, None, None)];
    var prompt := new AutocompleteText(five, five);
    prompt.OnValue("/", 1);
    assert prompt.mode == Search;
    prompt.OnValue(":", 1);
    assert |prompt.filteredOptions| == 5;
  }

  /** Searching a list of five, `:3` moves the cursor to 3 and `:9` raises the error state and leaves it there. */
  method IndexJumpScenario(prompt: AutocompleteText)
    requires prompt.mode == Search && |prompt.filteredOptions| == 5
    modifies prompt
  {
    JumpDigits();
    prompt.OnValue(":3", 2);
    assert prompt.cursor == 3;
    prompt.OnValue(":9", 2);
    assert prompt.state == Error && prompt.cursor == 3;
  }
}
