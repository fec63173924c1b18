/** The string builders every frame of the prompt is assembled from (packages/core/src/components/builder.ts).

    Terminal text is a sequence of glyphs. A colour from the picocolors palette is an opaque tag pair
    wrapped around the text it colours; `Strip` removes the tags and gives what the user reads. */
module Builder {
  import opened Wrappers
  import opened Seqs

  /** Glyphs the prompt imports from its symbol table (utils.ts is not part of this model). */
  datatype Symbol = CheckboxActive | CheckboxSelected | CheckboxInactive | Bar

  datatype Glyph = Ch(c: char) | Sym(sym: Symbol) | Open(style: string) | Close(style: string)

  type Text = seq<Glyph>

  /** The colour functions picocolors exports; any other name (and `isColorSupported`, a boolean)
      leaves text uncoloured. */
  const Palette: set<string> := {
    "reset", "bold", "dim", "italic", "underline", "inverse", "hidden", "strikethrough",
    "black", "red", "green", "yellow", "blue", "magenta", "cyan", "white", "gray",
    "bgBlack", "bgRed", "bgGreen", "bgYellow", "bgBlue", "bgMagenta", "bgCyan", "bgWhite"
  }

  /** A string literal as text. */
  function Lit(s: string): (t: Text)
  {
    if s == [] then [] else [Ch(s[0])] + Lit(s[1..])
  }

  const NL: Text := Lit("\n")

  /** What the user reads: the text with its colour tags removed. */
  function Strip(t: Text): Text
  {
    if t == [] then []
    else (if t[0].Open? || t[0].Close? then [] else [t[0]]) + Strip(t[1..])
  }

  lemma {:induction false} LitAppend(a: string, b: string)
    ensures Lit(a + b) == Lit(a) + Lit(b)
  {
    if a == [] {
      assert a + b == b;
    } else {
      assert (a + b)[1..] == a[1..] + b;
      LitAppend(a[1..], b);
    }
  }

  lemma {:induction false} StripAppend(a: Text, b: Text)
    ensures Strip(a + b) == Strip(a) + Strip(b)
  {
    if a == [] {
      assert a + b == b;
    } else {
      assert (a + b)[1..] == a[1..] + b;
      StripAppend(a[1..], b);
    }
  }

  lemma {:induction false} StripLit(s: string)
    ensures Strip(Lit(s)) == Lit(s)
  {
    if s != [] {
      StripLit(s[1..]);
    }
  }

  /** The texts of a list, each stripped. */
  function StripAll(parts: seq<Text>): seq<Text>
  {
    seq(|parts|, i requires 0 <= i < |parts| => Strip(parts[i]))
  }

  /** What a joined list reads: the stripped parts joined by the stripped separator. */
  lemma {:induction false} StripJoin(parts: seq<Text>, sep: Text)
    ensures Strip(JoinWith(parts, sep)) == JoinWith(StripAll(parts), Strip(sep))
  {
    if |parts| > 1 {
      StripJoin(parts[1..], sep);
      assert StripAll(parts)[1..] == StripAll(parts[1..]);
      StripAppend(parts[0], sep);
      StripAppend(parts[0] + sep, JoinWith(parts[1..], sep));
    }
  }

  /** A colour function of the palette applied to `t`. */
  function Paint(style: string, t: Text): (r: Text)
    ensures Strip(r) == Strip(t)
  {
    StripAppend([Open(style)], t);
    StripAppend([Open(style)] + t, [Close(style)]);
    [Open(style)] + t + [Close(style)]
  }

  /** `x(...args)`: the concatenation of the arguments, in order. */
  function X(args: seq<Text>): (r: Text)
    ensures args == [] ==> r == []
    ensures |args| == 1 ==> r == args[0]
    ensures |args| == 2 ==> r == args[0] + args[1]
  {
    assert |args| == 2 ==> JoinWith(args[1..], []) == args[1];
    JoinWith(args, [])
  }

  lemma XAppend(a: seq<Text>, b: seq<Text>)
    ensures X(a + b) == X(a) + X(b)
  {
    JoinEmptyAppend(a, b);
  }

  /** `ct(color, ...args)`: the arguments joined, then coloured once when `color` names a colour function. */
  function Ct(color: string, args: seq<Text>): (r: Text)
    ensures Strip(r) == Strip(X(args))
    ensures color !in Palette ==> r == X(args)
  {
    var joined := X(args);
    if color in Palette then Paint(color, joined) else joined
  }

  /** Colouring the joined arguments is the same as colouring the arguments: `ct` joins before it colours. */
  lemma CtJoinsFirst(color: string, args: seq<Text>)
    ensures Ct(color, args) == Ct(color, [X(args)])
  {
    XAppend([X(args)], []);
  }

  function NewlineIf(nl: bool): Text
  {
    if nl then NL else []
  }

  /** `s({str, color, nl})`: `str`, coloured when `color` names a colour function, then a newline when `nl`. */
  function S(str: Text, color: Option<string>, nl: bool): (r: Text)
    ensures Strip(r) == Strip(str) + NewlineIf(nl)
  {
    var coloured := if color.Some? && color.value in Palette then Paint(color.value, str) else str;
    StripAppend(coloured, NewlineIf(nl));
    StripLit("\n");
    coloured + NewlineIf(nl)
  }

  /** `s` appends exactly one newline when its flag is set, and nothing otherwise. */
  lemma SNewline(str: Text, color: Option<string>)
    ensures S(str, color, true) == S(str, color, false) + NL
    ensures color.None? ==> S(str, color, false) == str
  {
  }

  /** The first argument of `b`: a string or an array of strings. */
  datatype Piece = Single(s: Text) | Parts(parts: seq<Text>)

  /** The second argument of `b`: absent, a newline flag, or a colour name. */
  datatype BStyle = NoStyle | Flag(on: bool) | Named(color: string)

  /** `_str` after `if (Array.isArray(_str)) _str = _str.join("")`. */
  function Joined(str: Piece): Text
  {
    match str
    case Single(s) => s
    case Parts(ps) => X(ps)
  }

  /** The string JavaScript's `+` makes of the first argument: an array becomes its elements joined by commas. */
  function JsString(str: Piece): Text
  {
    match str
    case Single(s) => s
    case Parts(ps) => JoinWith(ps, Lit(","))
  }

  /** `b` as written: the boolean form returns `str + ...`, the original argument, not the joined `_str`. */
  function BAsWritten(str: Piece, color: BStyle, nl: bool): (r: Text)
    ensures !(color.Flag? && str.Parts?) ==> r == B(str, color, nl)
    ensures color.Flag? && str.Parts? ==> r == JoinWith(str.parts, Lit(",")) + NewlineIf(color.on)
  {
    if color.Flag? then JsString(str) + NewlineIf(color.on)
    else
      var joined := Joined(str);
      (if color.Named? && color.color in Palette then Paint(color.color, joined) else joined) + NewlineIf(nl)
  }

  /** `b` as evidently intended: every form works on the joined pieces. */
  function B(str: Piece, color: BStyle, nl: bool): (r: Text)
    ensures Strip(r) == Strip(Joined(str)) + NewlineIf(if color.Flag? then color.on else nl)
    ensures color.Flag? ==> r == Joined(str) + NewlineIf(color.on)
  {
    var joined := Joined(str);
    var coloured := if color.Named? && color.color in Palette then Paint(color.color, joined) else joined;
    var flag := if color.Flag? then color.on else nl;
    StripAppend(coloured, NewlineIf(flag));
    StripLit("\n");
    coloured + NewlineIf(flag)
  }

  /** On an array with the boolean form, the code as written puts commas between the pieces. */
  lemma BAsWrittenJoinsWithCommas()
    ensures BAsWritten(Parts([Lit("a"), Lit("b")]), Flag(true), false) == Lit("a,b\n")
    ensures B(Parts([Lit("a"), Lit("b")]), Flag(true), false) == Lit("ab\n")
  {
    assert Lit("a") + Lit(",") + Lit("b") + Lit("\n") == Lit("a,b\n");
    assert Lit("a") + Lit("b") + Lit("\n") == Lit("ab\n");
  }

  /** The second argument of `when`: a value, or a function applied to the condition. */
  datatype Branch<-C, T> = Given(v: T) | Computed(f: C -> T)

  /** `when(condition, whenTrue, fallback)`; `truthy` is JavaScript's `Boolean` on the condition's type. */
  function When<C, T>(condition: C, truthy: C -> bool, whenTrue: Branch<C, T>, fallback: T): (r: T)
    ensures !truthy(condition) ==> r == fallback
    ensures truthy(condition) && whenTrue.Given? ==> r == whenTrue.v
    ensures truthy(condition) && whenTrue.Computed? ==> r == whenTrue.f(condition)
  {
    if truthy(condition) then
      match whenTrue
      case Given(v) => v
      case Computed(f) => f(condition)
    else fallback
  }

  /** `when` on a boolean condition with a plain value, the form the renderer uses. */
  function Pick<T>(condition: bool, whenTrue: T, fallback: T): (r: T)
    ensures r == if condition then whenTrue else fallback
  {
    When(condition, b => b, Given(whenTrue), fallback)
  }

  function Spaces(n: nat): (s: string)
    ensures |s| == n && forall i :: 0 <= i < n ==> s[i] == ' '
  {
    if n == 0 then "" else " " + Spaces(n - 1)
  }

  /** The chained builder returned by `t(str)`: each call appends to the captured string. */
  class TextBuilder {
    var str: Text

    /** `t(str)`: starts from `str ?? ""`. */
    constructor (init: Option<Text>)
      ensures str == init.GetOr([])
    {
      str := init.GetOr([]);
    }

    /** `.p(color)`: colours everything accumulated so far. */
    method P(color: string) returns (self: TextBuilder)
      modifies this
      ensures self == this
      ensures str == if color in Palette then Paint(color, old(str)) else old(str)
      ensures Strip(str) == Strip(old(str))
    {
      if color in Palette {
        str := Paint(color, str);
      }
      self := this;
    }

    /** `.nl()`. */
    method Nl() returns (self: TextBuilder)
      modifies this
      ensures self == this && str == old(str) + NL
    {
      str := str + NL;
      self := this;
    }

    /** `.space(n = 1)`. */
    method Space(n: nat := 1) returns (self: TextBuilder)
      modifies this
      ensures self == this && str == old(str) + Lit(Spaces(n))
      ensures |str| == |old(str)| + n
    {
      LitLength(Spaces(n));
      str := str + Lit(Spaces(n));
      self := this;
    }

    /** `.c(when, whenTrue, fallback)`. */
    method C(condition: bool, whenTrue: Text, fallback: Text) returns (self: TextBuilder)
      modifies this
      ensures self == this
      ensures condition ==> str == old(str) + whenTrue
      ensures !condition ==> str == old(str) + fallback
    {
      if condition {
        str := str + whenTrue;
      } else {
        str := str + fallback;
      }
      self := this;
    }

    /** `.t(s)`. */
    method T(s: Text) returns (self: TextBuilder)
      modifies this
      ensures self == this && str == old(str) + s
    {
      str := str + s;
      self := this;
    }

    /** `.print()`: the accumulated string; the builder is left as it is. */
    method Print() returns (r: Text)
      ensures r == str
    {
      r := str;
    }
  }

  lemma {:induction false} LitLength(s: string)
    ensures |Lit(s)| == |s|
  {
    if s != [] {
      LitLength(s[1..]);
    }
  }

  /** A chain of builder calls accumulates its pieces in call order. */
  method BuilderChain(a: string, b: string) returns (r: Text)
    ensures r == Lit(a) + Lit(" ") + Lit(b) + NL
  {
    var builder := new TextBuilder(Some(Lit(a)));
    var chained := builder.Space();
    chained := chained.T(Lit(b));
    chained := chained.Nl();
    r := chained.Print();
    assert Spaces(1) == " ";
  }
}
