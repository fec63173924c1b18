/** The matcher and sorter of the autocomplete prompt
    (packages/core/src/components/autocomplete/autocomplete.ts, `buildRegex`, `search`, `sortByGroup`). */
module Matching {
  import opened Wrappers
  import opened Seqs

  /** One option of the prompt: `{ value, label?, hint?, group? }` (`label` is a reserved word in Dafny,
      so the field is called `caption`). `ref` stands for the identity of the JavaScript object: two
      entries are the same object exactly when their `ref`s agree. Values are strings (the callers pass
      strings, and `toLowerCase` is called on them). */
  datatype Opt = Opt(ref: nat, value: string, caption: Option<string>, hint: Option<string>, group: Option<string>)

  /** JavaScript truthiness of `option.group`: present and not empty. */
  predicate Grouped(o: Opt)
  {
    o.group.Some? && o.group.value != ""
  }

  /** `option.label ?? option.value`: the text the matcher looks at and the renderer shows. */
  function Display(o: Opt): string
  {
    o.caption.GetOr(o.value)
  }

  function LowerChar(c: char): char
  {
    if 'A' <= c <= 'Z' then (c as int + 32) as char else c
  }

  /** `toLowerCase`, on the ASCII letters. */
  function Lower(s: string): (r: string)
    ensures |r| == |s|
    ensures forall i :: 0 <= i < |s| ==> r[i] == LowerChar(s[i])
  {
    if s == [] then [] else [LowerChar(s[0])] + Lower(s[1..])
  }

  // ---------------------------------------------------------------------------------------------
  // The scatter pattern and the part of JavaScript's regular expressions it uses

  /** The body of the pattern `buildRegex` builds: each query character followed by `.*`. */
  function ScatterPattern(q: string): string
  {
    if q == [] then "" else [q[0]] + ".*" + ScatterPattern(q[1..])
  }

  /** `buildRegex(str)`: appends `str[i] + ".*"` for each character, then puts `.*` in front. */
  method BuildRegex(str: string) returns (pattern: string)
    ensures pattern == ".*" + ScatterPattern(str)
  {
    var s := "";
    var i := 0;
    while i < |str|
      invariant 0 <= i <= |str|
      invariant s == ScatterPattern(str[..i])
    {
      assert str[..i + 1] == str[..i] + [str[i]];
      ScatterSnoc(str[..i], str[i]);
      s := s + ([str[i]] + ".*");
      i := i + 1;
    }
    assert str[..i] == str;
    pattern := ".*" + s;
  }

  /** One more query character adds that character and `.*` at the end of the pattern. */
  lemma {:induction false} ScatterSnoc(q: string, c: char)
    ensures ScatterPattern(q + [c]) == ScatterPattern(q) + ([c] + ".*")
  {
    if q == [] {
      assert q + [c] == [c];
    } else {
      assert (q + [c])[1..] == q[1..] + [c];
      ScatterSnoc(q[1..], c);
    }
  }

  /** The pattern elements the scatter pattern is made of: `.*`, `.` and a literal character. */
  datatype Token = AnyRun | Any | Char(c: char)

  /** Reads a pattern as a token list. Characters other than `.` are read as literals; see README. */
  function Tokenize(p: string): seq<Token>
  {
    if p == [] then []
    else if p[0] == '.' && |p| > 1 && p[1] == '*' then [AnyRun] + Tokenize(p[2..])
    else if p[0] == '.' then [Any] + Tokenize(p[1..])
    else [Char(p[0])] + Tokenize(p[1..])
  }

  /** The characters JavaScript's `.` does not match. */
  predicate IsLineTerminator(c: char)
  {
    c == '\n' || c == '\r' || c == '\U{2028}' || c == '\U{2029}'
  }

  /** The tokens match a prefix of `s` (`.*` is greedy in JavaScript, but any split gives the same verdict). */
  function MatchAt(toks: seq<Token>, s: string): bool
    decreases |s|, |toks|
  {
    if toks == [] then true
    else match toks[0]
      case AnyRun => MatchAt(toks[1..], s) || (s != [] && !IsLineTerminator(s[0]) && MatchAt(toks, s[1..]))
      case Any => s != [] && !IsLineTerminator(s[0]) && MatchAt(toks[1..], s[1..])
      case Char(c) => s != [] && s[0] == c && MatchAt(toks[1..], s[1..])
  }

  /** `RegExp.prototype.test`: a match starts at some position of `s`. */
  function Test(toks: seq<Token>, s: string): bool
  {
    MatchAt(toks, s) || (s != [] && Test(toks, s[1..]))
  }

  /** `buildRegex(q).test(s)`. */
  predicate Matches(q: string, s: string)
  {
    Test(Tokenize(".*" + ScatterPattern(q)), s)
  }

  function TokenOf(c: char): Token
  {
    if c == '.' then Any else Char(c)
  }

  /** The tokens of the scatter body: each query character's token followed by `.*`. */
  function ScatterTokens(q: string): seq<Token>
  {
    if q == [] then [] else [TokenOf(q[0]), AnyRun] + ScatterTokens(q[1..])
  }

  lemma TokenizeAnyRun(rest: string)
    ensures Tokenize(".*" + rest) == [AnyRun] + Tokenize(rest)
  {
    assert (".*" + rest)[2..] == rest;
  }

  /** One character of the scatter body and the `.*` after it become two tokens. */
  lemma TokenizeStep(c: char, rest: string)
    ensures Tokenize([c] + ".*" + rest) == [TokenOf(c), AnyRun] + Tokenize(rest)
  {
    var p := [c] + ".*" + rest;
    assert p[1..] == ".*" + rest;
    TokenizeAnyRun(rest);
  }

  lemma {:induction false} TokenizeScatter(q: string)
    ensures Tokenize(ScatterPattern(q)) == ScatterTokens(q)
    ensures Tokenize(".*" + ScatterPattern(q)) == [AnyRun] + ScatterTokens(q)
  {
    TokenizeAnyRun(ScatterPattern(q));
    if q != [] {
      TokenizeScatter(q[1..]);
      TokenizeStep(q[0], ScatterPattern(q[1..]));
    }
  }

  predicate NoLineTerminator(s: string)
  {
    forall i :: 0 <= i < |s| ==> !IsLineTerminator(s[i])
  }

  predicate NoDot(q: string)
  {
    forall i :: 0 <= i < |q| ==> q[i] != '.'
  }

  lemma {:induction false} MatchAtScatter(q: string, s: string)
    requires NoDot(q) && NoLineTerminator(s)
    ensures MatchAt([AnyRun] + ScatterTokens(q), s) <==> IsSubseq(q, s)
    decreases |s| + |q|
  {
    var toks := [AnyRun] + ScatterTokens(q);
    assert toks[1..] == ScatterTokens(q);
    if q == [] {
    } else if s == [] {
      assert ScatterTokens(q)[0] == Char(q[0]);
    } else {
      var sc := ScatterTokens(q);
      assert sc[0] == Char(q[0]);
      assert sc[1..] == [AnyRun] + ScatterTokens(q[1..]);
      MatchAtScatter(q[1..], s[1..]);
      MatchAtScatter(q, s[1..]);
    }
  }

  /** For a query without `.` and a target on one line, the pattern matches exactly when the query is an
      ordered subsequence of the target. */
  lemma {:induction false} MatchesIsSubsequence(q: string, s: string)
    requires NoDot(q) && NoLineTerminator(s)
    ensures Matches(q, s) <==> IsSubseq(q, s)
  {
    TokenizeScatter(q);
    var toks := [AnyRun] + ScatterTokens(q);
    MatchAtScatter(q, s);
    if s != [] {
      MatchesIsSubsequence(q, s[1..]);
      if IsSubseq(q, s[1..]) {
        IsSubseqDropFront(q, s);
      }
    }
  }

  /** The empty pattern `.*` matches every string. */
  lemma MatchesEmpty(s: string)
    ensures Matches("", s)
  {
    assert ".*" + ScatterPattern("") == ".*";
    assert Tokenize(".*") == [AnyRun];
  }

  /** `.` does not cross a line break: the query "ab" does not match "a\nb" though it is a subsequence. */
  lemma MatchesStopsAtLineBreak()
    ensures !Matches("ab", "a\nb") && IsSubseq("ab", "a\nb")
  {
    TokenizeScatter("ab");
    var toks := [AnyRun] + ScatterTokens("ab");
    assert toks == [AnyRun, Char('a'), AnyRun, Char('b'), AnyRun];
    assert "a\nb"[1..] == "\nb";
    assert "\nb"[1..] == "b";
    assert "b"[1..] == "";
    assert toks[1..] == [Char('a'), AnyRun, Char('b'), AnyRun];
    assert toks[2..] == [AnyRun, Char('b'), AnyRun];
    assert toks[3..] == [Char('b'), AnyRun];
    assert !MatchAt(toks[3..], "\nb");
    assert !MatchAt(toks[2..], "\nb");
    assert !MatchAt(toks[1..], "");
    assert !MatchAt(toks, "");
    assert !MatchAt(toks[1..], "b");
    assert !MatchAt(toks, "b");
    assert !MatchAt(toks[1..], "\nb");
    assert !MatchAt(toks, "\nb");
    assert !MatchAt(toks[1..], "a\nb");
    assert !MatchAt(toks, "a\nb");
    assert !Test(toks, "");
    assert !Test(toks, "b");
    assert !Test(toks, "\nb");
    assert !Test(toks, "a\nb");
  }

  // ---------------------------------------------------------------------------------------------
  // The group query `/(\w+)\/(\w+)?/`

  predicate IsWordChar(c: char)
  {
    'a' <= c <= 'z' || 'A' <= c <= 'Z' || '0' <= c <= '9' || c == '_'
  }

  /** The length of the longest run of word characters starting at `p` (a greedy `\w+`). */
  function WordRun(s: string, p: nat): (n: nat)
    requires p <= |s|
    ensures p + n <= |s|
    ensures forall k :: p <= k < p + n ==> IsWordChar(s[k])
    ensures p + n == |s| || !IsWordChar(s[p + n])
    decreases |s| - p
  {
    if p < |s| && IsWordChar(s[p]) then 1 + WordRun(s, p + 1) else 0
  }

  /** The two captures of the group pattern: the group word and the optional word after the slash. */
  datatype GroupQuery = GroupQuery(group: string, sub: Option<string>)

  /** The match of the group pattern starting exactly at `p`. */
  function GroupAt(q: string, p: nat): Option<GroupQuery>
    requires p <= |q|
  {
    var n := WordRun(q, p);
    if n > 0 && p + n < |q| && q[p + n] == '/' then
      var m := WordRun(q, p + n + 1);
      Some(GroupQuery(q[p..p + n], if m > 0 then Some(q[p + n + 1..p + n + 1 + m]) else None))
    else None
  }

  /** Every character of `w` is a word character. */
  predicate AllWord(w: string)
  {
    forall k :: 0 <= k < |w| ==> IsWordChar(w[k])
  }

  /** A match of the group pattern can start at `t`: a run of word characters there is followed by `/`. */
  predicate StartsGroup(q: string, t: nat)
  {
    t < |q| && WordRun(q, t) > 0 && t + WordRun(q, t) < |q| && q[t + WordRun(q, t)] == '/'
  }

  /** `g` holds the captures of the match that starts at `t`: the word characters from `t` up to a `/`,
      then the longest run of word characters after the slash, absent when that run is empty. */
  predicate CapturesAt(q: string, t: nat, g: GroupQuery)
  {
    var slash := t + |g.group|;
    |g.group| > 0 && slash < |q| && q[t..slash] == g.group && AllWord(g.group) && q[slash] == '/' &&
    match g.sub
    case None => slash + 1 == |q| || !IsWordChar(q[slash + 1])
    case Some(w) =>
      var stop := slash + 1 + |w|;
      |w| > 0 && stop <= |q| && q[slash + 1..stop] == w && AllWord(w) && (stop == |q| || !IsWordChar(q[stop]))
  }

  /** `lookFor.match(/(\w+)\/(\w+)?/)`: the leftmost match from position `p` on, with greedy captures. */
  function ParseGroupFrom(q: string, p: nat): (r: Option<GroupQuery>)
    requires p <= |q|
    ensures r.Some? ==> |r.value.group| > 0 && forall k :: 0 <= k < |r.value.group| ==> IsWordChar(r.value.group[k])
    ensures r.Some? && r.value.sub.Some? ==>
              |r.value.sub.value| > 0 && forall k :: 0 <= k < |r.value.sub.value| ==> IsWordChar(r.value.sub.value[k])
    ensures r.Some? ==> exists t :: p <= t && CapturesAt(q, t, r.value) && forall u :: p <= u < t ==> !StartsGroup(q, u)
    ensures r.None? ==> forall u :: p <= u ==> !StartsGroup(q, u)
    decreases |q| - p
  {
    if p == |q| then None
    else if GroupAt(q, p).Some? then
      GroupCaptures(q, p);
      GroupAt(q, p)
    else
      assert !StartsGroup(q, p);
      ParseGroupFrom(q, p + 1)
  }

  /** The match found at a start position holds the captures the pattern defines there. */
  lemma GroupCaptures(q: string, p: nat)
    requires p < |q| && GroupAt(q, p).Some?
    ensures CapturesAt(q, p, GroupAt(q, p).value)
  {
    var n := WordRun(q, p);
    var g := GroupAt(q, p).value;
    assert |g.group| == n;
    var m := WordRun(q, p + n + 1);
    if m > 0 {
      assert g.sub.value == q[p + n + 1..p + n + 1 + m];
    }
  }

  function ParseGroup(q: string): Option<GroupQuery>
  {
    ParseGroupFrom(q, 0)
  }

  /** Some `/` in `q[p..]` is preceded by a word character that is itself in `q[p..]`. */
  predicate SlashAfterWord(q: string, p: nat)
  {
    exists k :: p < k < |q| && q[k] == '/' && IsWordChar(q[k - 1])
  }

  /** The group pattern matches exactly when some slash follows a word character. */
  lemma ParseGroupFromFinds(q: string, p: nat)
    requires p <= |q|
    ensures ParseGroupFrom(q, p).Some? <==> SlashAfterWord(q, p)
  {
    if ParseGroupFrom(q, p).Some? {
      MatchHasSlash(q, p, ParseGroupFrom(q, p).value);
    } else if SlashAfterWord(q, p) {
      var k :| p < k < |q| && q[k] == '/' && IsWordChar(q[k - 1]);
      SlashStartsGroup(q, k);
    }
  }

  /** The captures of a match end at a slash that follows a word character. */
  lemma MatchHasSlash(q: string, p: nat, g: GroupQuery)
    requires exists t :: p <= t && CapturesAt(q, t, g)
    ensures SlashAfterWord(q, p)
  {
    var t :| p <= t && CapturesAt(q, t, g);
    var slash := t + |g.group|;
    assert q[slash - 1] == g.group[|g.group| - 1];
    assert q[slash] == '/' && IsWordChar(q[slash - 1]);
  }

  /** A word character right before a slash starts a match of the group pattern. */
  lemma SlashStartsGroup(q: string, k: nat)
    requires 0 < k < |q| && q[k] == '/' && IsWordChar(q[k - 1])
    ensures StartsGroup(q, k - 1)
  {
    assert WordRun(q, k) == 0;
  }

  lemma ParseGroupIffSlashAfterWord(q: string)
    ensures ParseGroup(q).Some? <==> exists k :: 0 < k < |q| && q[k] == '/' && IsWordChar(q[k - 1])
  {
    ParseGroupFromFinds(q, 0);
  }

  /** The two example queries of the group syntax. */
  lemma ParseGroupExamples()
    ensures ParseGroup("g1/") == Some(GroupQuery("g1", None))
    ensures ParseGroup("g1/b") == Some(GroupQuery("g1", Some("b")))
    ensures ParseGroup("/x") == None
  {
    assert WordRun("g1/", 2) == 0;
    assert WordRun("g1/", 3) == 0;
    assert WordRun("g1/", 0) == 2;
    assert "g1/"[0..2] == "g1";
    assert WordRun("g1/b", 2) == 0;
    assert WordRun("g1/b", 4) == 0;
    assert WordRun("g1/b", 3) == 1;
    assert WordRun("g1/b", 0) == 2;
    assert "g1/b"[0..2] == "g1";
    assert "g1/b"[3..4] == "b";
    ParseGroupIffSlashAfterWord("/x");
  }

  // ---------------------------------------------------------------------------------------------
  // `search` and `sortByGroup`

  /** `haystack.includes(needle)`. */
  predicate IsInfix(needle: string, haystack: string)
  {
    exists i :: 0 <= i <= |haystack| - |needle| && OccursAt(needle, haystack, i)
  }

  predicate OccursAt(needle: string, haystack: string, i: int)
  {
    0 <= i <= |haystack| - |needle| && haystack[i..i + |needle|] == needle
  }

  /** The test of `option.group && option.group.includes(word)`. */
  predicate InGroup(o: Opt, word: string)
  {
    Grouped(o) && IsInfix(word, o.group.value)
  }

  /** The test of `r.test((v.label ?? v.value).toLowerCase())`. */
  predicate Keeps(q: string, o: Opt)
  {
    Matches(q, Lower(Display(o)))
  }

  /** `search(values, lookFor)`: some of the options, in their order; all of them for the empty query. */
  function Search(values: seq<Opt>, lookFor: string): (r: seq<Opt>)
    ensures IsSubseq(r, values)
    ensures lookFor == "" ==> r == values
  {
    match ParseGroup(lookFor)
    case Some(g) =>
      var groupData := Filter(values, o => InGroup(o, g.group));
      FilterIsSubseq(values, o => InGroup(o, g.group));
      if g.sub.None? then groupData
      else
        FilterIsSubseq(groupData, o => Keeps(g.sub.value, o));
        IsSubseqTrans(Filter(groupData, o => Keeps(g.sub.value, o)), groupData, values);
        Filter(groupData, o => Keeps(g.sub.value, o))
    case None =>
      if |lookFor| == 0 then
        IsSubseqRefl(values);
        values
      else
        FilterIsSubseq(values, o => Keeps(lookFor, o));
        Filter(values, o => Keeps(lookFor, o))
  }

  /** Without a group query, an option is kept exactly when the scatter pattern matches its lowercased
      label (its value when it has no label). */
  lemma SearchPlainQuery(values: seq<Opt>, q: string)
    requires ParseGroup(q).None?
    ensures forall o :: o in Search(values, q) <==> o in values && Keeps(q, o)
  {
    if q == "" {
      forall o | o in values ensures Keeps(q, o) {
        MatchesEmpty(Lower(Display(o)));
      }
    } else {
      FilterMembership(values, o => Keeps(q, o));
    }
  }

  /** For a literal query (no `.` and no group syntax), an option whose text is one line is kept exactly
      when the query is an ordered subsequence of its lowercased text. */
  lemma SearchLiteralQuery(values: seq<Opt>, q: string, o: Opt)
    requires ParseGroup(q).None? && NoDot(q)
    requires o in values && NoLineTerminator(Lower(Display(o)))
    ensures o in Search(values, q) <==> IsSubseq(q, Lower(Display(o)))
  {
    SearchPlainQuery(values, q);
    MatchesIsSubsequence(q, Lower(Display(o)));
  }

  /** With a group query `word/` or `word/sub`, an option is kept exactly when its group contains `word`
      and, when `sub` is present, `sub` is a scatter match of its lowercased text. */
  lemma SearchGroupQuery(values: seq<Opt>, q: string)
    requires ParseGroup(q).Some?
    ensures var g := ParseGroup(q).value;
      forall o :: o in Search(values, q) <==>
        o in values && InGroup(o, g.group) && (g.sub.Some? ==> Keeps(g.sub.value, o))
  {
    var g := ParseGroup(q).value;
    var groupData := Filter(values, o => InGroup(o, g.group));
    FilterMembership(values, o => InGroup(o, g.group));
    if g.sub.Some? {
      FilterMembership(groupData, o => Keeps(g.sub.value, o));
    }
  }

  /** The word after the slash is a literal query: on a one-line option text it is a subsequence test. */
  lemma SearchGroupSubIsSubsequence(values: seq<Opt>, q: string, o: Opt)
    requires ParseGroup(q).Some? && ParseGroup(q).value.sub.Some?
    requires o in values && NoLineTerminator(Lower(Display(o)))
    ensures var g := ParseGroup(q).value;
      o in Search(values, q) <==> InGroup(o, g.group) && IsSubseq(g.sub.value, Lower(Display(o)))
  {
    var g := ParseGroup(q).value;
    SearchGroupQuery(values, q);
    assert NoDot(g.sub.value) by {
      forall k | 0 <= k < |g.sub.value| ensures g.sub.value[k] != '.' {
        assert IsWordChar(g.sub.value[k]);
      }
    }
    MatchesIsSubsequence(g.sub.value, Lower(Display(o)));
  }

  /** `sortByGroup(options)`: a sorted copy of the options in which every ungrouped option comes before
      every grouped one. The comparator answers -1 for two ungrouped options in either order, so their
      order is up to the sort; the model keeps input order (a stable partition). */
  function SortByGroup(options: seq<Opt>): (r: seq<Opt>)
    ensures multiset(r) == multiset(options)
    ensures |r| == |options|
    ensures forall i, j :: 0 <= i < j < |r| && Grouped(r[i]) ==> Grouped(r[j])
  {
    var ungrouped := Reject(options, Grouped);
    var grouped := Filter(options, Grouped);
    RejectFilterSplit(options, Grouped);
    RejectMembership(options, Grouped);
    FilterMembership(options, Grouped);
    assert |multiset(ungrouped + grouped)| == |ungrouped + grouped|;
    var r := ungrouped + grouped;
    assert forall i :: 0 <= i < |ungrouped| ==> r[i] in ungrouped;
    assert forall j :: |ungrouped| <= j < |r| ==> r[j] in grouped;
    r
  }
}
