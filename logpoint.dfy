/**
 * Conversion of a logpoint message such as `x is {x}` into the JavaScript
 * expression the runtime evaluates: the message is split into string
 * literals and `{expression}` parts (no escaping, no nesting), each literal
 * is encoded as a JSON string, and a `reduce` call joins the values.
 */
module Logpoints {
  import opened Wrappers
  import opened Text

  /** The text appended after the item list; it concatenates non-object values into strings. */
  const ReduceCall: string :=
    ".reduce((a,c)=>{if(typeof c==='object'&&c){a.push(c,'')}else{a.push(a.pop()+c)}return a},[''])"

  // ---------------------------------------------------------------------
  // JSON string literals (`JSON.stringify` on a string)
  // ---------------------------------------------------------------------

  const Backspace: char := 8 as char
  const FormFeed: char := 12 as char

  function HexDigit(d: nat): char
    requires d < 16
  {
    if d < 10 then ('0' as int + d) as char else ('a' as int + d - 10) as char
  }

  /** The first hex digit of a control character's code, which is below 0x20. */
  function High(c: char): (r: nat)
    requires c < ' '
    ensures 0 <= c as int - 16 * r < 16
  {
    if c as int < 16 then 0 else 1
  }

  /** The characters with a two-character escape, and the letter after the backslash. */
  const ShortEscapes: map<char, char> :=
    map['"' := '"', '\\' := '\\', Backspace := 'b', '\t' := 't', '\n' := 'n', FormFeed := 'f', '\r' := 'r']

  /** The escape of one character inside a JSON string literal. */
  function EscapeChar(c: char): (r: string)
    ensures r != []
  {
    if c in ShortEscapes then ['\\', ShortEscapes[c]]
    else if c < ' ' then "\\u00" + [HexDigit(High(c)), HexDigit(c as int - 16 * High(c))]
    else [c]
  }

  function Escape(s: string): string {
    if s == [] then [] else EscapeChar(s[0]) + Escape(s[1..])
  }

  /** `JSON.stringify(s)` for a string `s`. */
  function JsonQuote(s: string): (r: string)
    ensures |r| >= 2 && r[0] == '"' && r[|r| - 1] == '"'
  {
    "\"" + Escape(s) + "\""
  }

  function HexValue(c: char): Option<nat> {
    if '0' <= c <= '9' then Some(c as int - '0' as int)
    else if 'a' <= c <= 'f' then Some(c as int - 'a' as int + 10)
    else if 'A' <= c <= 'F' then Some(c as int - 'A' as int + 10)
    else None
  }

  function Prepend(c: char, rest: Option<string>): Option<string> {
    if rest.Some? then Some([c] + rest.value) else None
  }

  /** The character of a `\uXXXX` escape, when it stands for one on its own. */
  function UnicodeEscape(h: string): Option<char>
    requires |h| == 4
  {
    if HexValue(h[0]).Some? && HexValue(h[1]).Some? && HexValue(h[2]).Some? && HexValue(h[3]).Some? then
      var v := ((HexValue(h[0]).value * 16 + HexValue(h[1]).value) * 16 + HexValue(h[2]).value) * 16 + HexValue(h[3]).value;
      if 0xD800 <= v < 0xE000 then None else Some(v as char)
    else None
  }

  /**
   * The contents of a JSON string literal between its quotes, read back
   * into the string it denotes; `None` when it is not well formed.
   */
  function Unescape(s: string): Option<string>
    decreases |s|
  {
    if s == [] then Some([])
    else if s[0] == '"' || s[0] < ' ' then None
    else if s[0] != '\\' then Prepend(s[0], Unescape(s[1..]))
    else if |s| < 2 then None
    else if s[1] == '"' || s[1] == '\\' || s[1] == '/' then Prepend(s[1], Unescape(s[2..]))
    else if s[1] == 'b' then Prepend(Backspace, Unescape(s[2..]))
    else if s[1] == 't' then Prepend('\t', Unescape(s[2..]))
    else if s[1] == 'n' then Prepend('\n', Unescape(s[2..]))
    else if s[1] == 'f' then Prepend(FormFeed, Unescape(s[2..]))
    else if s[1] == 'r' then Prepend('\r', Unescape(s[2..]))
    else if s[1] == 'u' && |s| >= 6 && UnicodeEscape(s[2..6]).Some? then
      Prepend(UnicodeEscape(s[2..6]).value, Unescape(s[6..]))
    else None
  }

  /** Reading back the escape of one character gives that character, whatever follows it. */
  lemma UnescapeEscapeChar(c: char, t: string)
    ensures Unescape(EscapeChar(c) + t) == Prepend(c, Unescape(t))
  {
    var e := EscapeChar(c) + t;
    if c < ' ' && c != Backspace && c != '\t' && c != '\n' && c != FormFeed && c != '\r' {
      UnescapeControl(c, t);
    } else if c == '"' || c == '\\' || c == Backspace || c == '\t' || c == '\n' || c == FormFeed || c == '\r' {
      assert e[2..] == t;
    } else {
      assert e[1..] == t;
    }
  }

  /** A control character without a short escape is read back from its `\u00XX` escape. */
  lemma UnescapeControl(c: char, t: string)
    requires c < ' ' && c != Backspace && c != '\t' && c != '\n' && c != FormFeed && c != '\r'
    ensures Unescape(EscapeChar(c) + t) == Prepend(c, Unescape(t))
  {
    var hi := High(c);
    var lo := c as int - 16 * hi;
    var e := "\\u00" + [HexDigit(hi), HexDigit(lo)] + t;
    assert EscapeChar(c) + t == e;
    assert e[2..6] == ['0', '0', HexDigit(hi), HexDigit(lo)];
    ControlEscape(c, hi, lo);
    assert e[6..] == t;
  }

  /** The four hex digits of a control character's escape read back as that character. */
  lemma ControlEscape(c: char, hi: nat, lo: nat)
    requires c < ' ' && hi == High(c) && lo == c as int - 16 * hi
    ensures UnicodeEscape(['0', '0', HexDigit(hi), HexDigit(lo)]) == Some(c)
  {
    assert HexValue('0') == Some(0);
    assert HexValue(HexDigit(hi)) == Some(hi);
    assert HexValue(HexDigit(lo)) == Some(lo);
    assert ((0 * 16 + 0) * 16 + hi) * 16 + lo == c as int;
  }

  /** Every string survives the trip through a JSON string literal. */
  lemma {:induction false} UnescapeEscape(s: string)
    ensures Unescape(Escape(s)) == Some(s)
  {
    if s != [] {
      UnescapeEscape(s[1..]);
      UnescapeEscapeChar(s[0], Escape(s[1..]));
      assert [s[0]] + s[1..] == s;
    }
  }

  /** `JsonQuote` is injective: distinct literal texts give distinct items. */
  lemma JsonQuoteInjective(s: string, t: string)
    requires JsonQuote(s) == JsonQuote(t)
    ensures s == t
  {
    var qs, qt := JsonQuote(s), JsonQuote(t);
    assert Escape(s) == qs[1..|qs| - 1];
    assert Escape(t) == qt[1..|qt| - 1];
    UnescapeEscape(s);
    UnescapeEscape(t);
  }

  // ---------------------------------------------------------------------
  // Splitting the message
  // ---------------------------------------------------------------------

  /**
   * A message split into literal, expression, literal, …, literal: it
   * starts and ends with a literal.
   */
  datatype Pieces = Last(literal: string) | Then(literal: string, expression: string, rest: Pieces)

  /** The number of `{expression}` parts. */
  function ExpressionCount(p: Pieces): nat {
    if p.Last? then 0 else 1 + ExpressionCount(p.rest)
  }

  /**
   * The message from `pos` on, split into pieces. An expression runs from
   * a `{` to the next `}`, or to the end of the message when there is none.
   */
  function Split(msg: string, pos: nat): Pieces
    requires pos <= |msg| + 1
  {
    SplitFrom(msg, pos)
  }

  /** The recursion behind `Split`, one piece at a time. */
  function SplitFrom(msg: string, pos: nat): Pieces
    requires pos <= |msg| + 1
    decreases |msg| + 1 - pos
  {
    var left := IndexOf(msg, '{', pos);
    if left < 0 then Last(Rest(msg, pos))
    else
      var right := ExpressionEnd(msg, left);
      Then(msg[pos..left], msg[left + 1..right], SplitFrom(msg, right + 1))
  }

  /** One entry of the item list, before it is written out. */
  datatype Item = Quoted(literal: string) | Verbatim(expression: string)

  /** How an item appears in the list: a literal as a JSON string, an expression as is. */
  function Render(item: Item): string {
    match item
    case Quoted(lit) => JsonQuote(lit)
    case Verbatim(expr) => expr
  }

  /** The items as strings, in order. */
  function Rendered(items: seq<Item>): (r: seq<string>)
    ensures |r| == |items|
  {
    if items == [] then [] else Rendered(items[..|items| - 1]) + [Render(items[|items| - 1])]
  }

  /** Rendering distributes over concatenation. */
  lemma {:induction false} RenderedAppend(a: seq<Item>, b: seq<Item>)
    ensures Rendered(a + b) == Rendered(a) + Rendered(b)
    decreases |b|
  {
    if b != [] {
      var c, last := b[..|b| - 1], Render(b[|b| - 1]);
      assert (a + b)[..|a + b| - 1] == a + c && (a + b)[|a + b| - 1] == b[|b| - 1];
      assert Rendered(a + b) == Rendered(a + c) + [last];
      assert Rendered(b) == Rendered(c) + [last];
      RenderedAppend(a, c);
      Associative(Rendered(a), Rendered(c), [last]);
    } else {
      assert a + b == a;
    }
  }

  /** The item list: literals and expressions alternate, literals first and last. */
  function Items(p: Pieces): (r: seq<Item>)
    ensures |r| == 2 * ExpressionCount(p) + 1
    ensures r[0] == Quoted(p.literal)
  {
    match p
    case Last(lit) => [Quoted(lit)]
    case Then(lit, expr, rest) => [Quoted(lit), Verbatim(expr)] + Items(rest)
  }

  function Join(items: seq<string>, sep: string): string {
    if items == [] then [] else if |items| == 1 then items[0] else items[0] + sep + Join(items[1..], sep)
  }

  /** The message text from `pos` on (empty past the end). */
  function Rest(msg: string, pos: nat): string {
    if pos <= |msg| then msg[pos..] else []
  }

  /** Puts the pieces back together with braces around each expression. */
  function Rebuild(p: Pieces): string {
    match p
    case Last(lit) => lit
    case Then(lit, expr, rest) => lit + "{" + expr + "}" + Rebuild(rest)
  }

  /** No literal holds a `{` and no expression holds a `}`. */
  predicate BraceFree(p: Pieces) {
    && '{' !in p.literal
    && (p.Then? ==> '}' !in p.expression && BraceFree(p.rest))
  }

  lemma NotInSlice(msg: string, a: nat, b: nat, c: char)
    requires a <= b <= |msg|
    requires forall i :: a <= i < b ==> msg[i] != c
    ensures c !in msg[a..b]
  {
  }

  /** Where the expression front at `left` ends: the next `}`, or the end of the message. */
  function ExpressionEnd(msg: string, left: nat): (right: nat)
    requires left < |msg|
    ensures left < right <= |msg|
  {
    var found := IndexOf(msg, '}', left + 1);
    if found < 0 then |msg| else found
  }

  /** The end of an expression as the scan computes it: the next `}`, else the length of the message. */
  lemma ExpressionEndFrom(msg: string, left: nat, found: int)
    requires left < |msg| && found == IndexOf(msg, '}', left + 1)
    ensures ExpressionEnd(msg, left) == if found < 0 then |msg| else found
  {
  }

  lemma SplitLast(msg: string, pos: nat)
    requires pos <= |msg| + 1 && IndexOf(msg, '{', pos) < 0
    ensures Split(msg, pos) == Last(Rest(msg, pos))
    ensures '{' !in Rest(msg, pos)
  {
    IndexOfFirst(msg, '{', pos);
    if pos <= |msg| {
      assert msg[pos..|msg|] == msg[pos..];
      NotInSlice(msg, pos, |msg|, '{');
    }
  }

  lemma SplitThen(msg: string, pos: nat)
    requires pos <= |msg| + 1 && IndexOf(msg, '{', pos) >= 0
    ensures var left := IndexOf(msg, '{', pos);
      var right := ExpressionEnd(msg, left);
      && Split(msg, pos) == Then(msg[pos..left], msg[left + 1..right], Split(msg, right + 1))
      && '{' !in msg[pos..left] && '}' !in msg[left + 1..right]
  {
    var left := IndexOf(msg, '{', pos);
    IndexOfFirst(msg, '{', pos);
    IndexOfFirst(msg, '}', left + 1);
    NotInSlice(msg, pos, left, '{');
    NotInSlice(msg, left + 1, ExpressionEnd(msg, left), '}');
  }

  lemma SliceSplit<X>(s: seq<X>, i: nat, j: nat)
    requires i <= j <= |s|
    ensures s[i..] == s[i..j] + s[j..]
  {
  }

  /** The text from `pos` on is the literal, the `{`, the expression and the text from its end. */
  lemma RestAround(msg: string, pos: nat, left: nat, right: nat)
    requires pos <= left < right <= |msg| && msg[left] == '{'
    ensures Rest(msg, pos) == msg[pos..left] + "{" + msg[left + 1..right] + Rest(msg, right)
  {
    SliceSplit(msg, pos, left);
    SliceSplit(msg, left, left + 1);
    SliceSplit(msg, left + 1, right);
    assert msg[left..left + 1] == "{";
    assert Rest(msg, pos) == msg[pos..left] + ("{" + (msg[left + 1..right] + msg[right..]));
  }

  /** Splitting yields pieces with no `{` in a literal and no `}` in an expression. */
  lemma {:induction false} SplitBraceFree(msg: string, pos: nat)
    requires pos <= |msg| + 1
    ensures BraceFree(Split(msg, pos))
    decreases |msg| + 1 - pos
  {
    var left := IndexOf(msg, '{', pos);
    if left < 0 {
      SplitLast(msg, pos);
    } else {
      var right := ExpressionEnd(msg, left);
      SplitThen(msg, pos);
      SplitBraceFree(msg, right + 1);
      var p := Split(msg, pos);
      assert p.Then? && '{' !in p.literal && '}' !in p.expression && p.rest == Split(msg, right + 1);
    }
  }

  /** Whether the last expression from `pos` on runs to the end of the message without a `}`. */
  predicate EndsOpen(msg: string, pos: nat)
    requires pos <= |msg| + 1
    decreases |msg| + 1 - pos
  {
    var left := IndexOf(msg, '{', pos);
    left >= 0 && (ExpressionEnd(msg, left) == |msg| || EndsOpen(msg, ExpressionEnd(msg, left) + 1))
  }

  /** The `}` that rebuilding adds: one when the last expression was left open, none otherwise. */
  function Closing(msg: string, pos: nat): string
    requires pos <= |msg| + 1
  {
    if EndsOpen(msg, pos) then "}" else ""
  }

  /** The pieces from `pos` on, put back together. */
  function Rebuilt(msg: string, pos: nat): string
    requires pos <= |msg| + 1
  {
    Rebuild(Split(msg, pos))
  }

  /**
   * Putting the pieces back together gives the message, with one `}` added
   * exactly when the last expression was not closed.
   */
  lemma SplitRebuild(msg: string, pos: nat)
    requires pos <= |msg| + 1
    ensures Rebuild(Split(msg, pos)) == Rest(msg, pos) + (if EndsOpen(msg, pos) then "}" else "")
  {
    RebuiltRest(msg, pos);
  }

  lemma {:induction false} RebuiltRest(msg: string, pos: nat)
    requires pos <= |msg| + 1
    ensures Rebuilt(msg, pos) == Rest(msg, pos) + Closing(msg, pos)
    decreases |msg| + 1 - pos, 1
  {
    var left := IndexOf(msg, '{', pos);
    if left < 0 {
      SplitLast(msg, pos);
      assert Rest(msg, pos) + "" == Rest(msg, pos);
    } else if ExpressionEnd(msg, left) < |msg| {
      RebuildClosed(msg, pos);
    } else {
      RebuildOpen(msg, pos);
    }
  }

  /** A closed expression: the text is rebuilt up to its `}`, and the rest as far as it is. */
  lemma RebuildClosed(msg: string, pos: nat)
    requires pos <= |msg| + 1 && IndexOf(msg, '{', pos) >= 0
    requires ExpressionEnd(msg, IndexOf(msg, '{', pos)) < |msg|
    ensures Rebuilt(msg, pos) == Rest(msg, pos) + Closing(msg, pos)
    decreases |msg| + 1 - pos, 0
  {
    var front, next := Front(msg, pos), Next(msg, pos);
    ClosedRebuilt(msg, pos);
    ClosedRest(msg, pos);
    ClosingClosed(msg, pos);
    RebuiltRest(msg, next);
    var close := Closing(msg, next);
    assert Rebuilt(msg, pos) == front + "}" + (Rest(msg, next) + close);
    Associative(front + "}", Rest(msg, next), close);
    Associative(front, "}", Rest(msg, next));
  }

  /** The literal, the `{` and the expression of the first piece from `pos`, as written. */
  function Front(msg: string, pos: nat): string
    requires pos <= |msg| + 1 && IndexOf(msg, '{', pos) >= 0
  {
    var left := IndexOf(msg, '{', pos);
    msg[pos..left] + "{" + msg[left + 1..ExpressionEnd(msg, left)]
  }

  /** Where the scan resumes after the first expression from `pos`. */
  function Next(msg: string, pos: nat): (r: nat)
    requires pos <= |msg| + 1 && IndexOf(msg, '{', pos) >= 0
    ensures pos < r <= |msg| + 1
  {
    ExpressionEnd(msg, IndexOf(msg, '{', pos)) + 1
  }

  /** Rebuilding from `pos` puts the first piece back, then a `}`, then the rest. */
  lemma ClosedRebuilt(msg: string, pos: nat)
    requires pos <= |msg| + 1 && IndexOf(msg, '{', pos) >= 0
    ensures Rebuilt(msg, pos) == Front(msg, pos) + "}" + Rebuilt(msg, Next(msg, pos))
  {
    var left := IndexOf(msg, '{', pos);
    RebuildThen(msg, pos, left, ExpressionEnd(msg, left), Front(msg, pos));
  }

  /** With the expression closed, the text from `pos` is the first piece, its `}` and the text after. */
  lemma ClosedRest(msg: string, pos: nat)
    requires pos <= |msg| + 1 && IndexOf(msg, '{', pos) >= 0
    requires ExpressionEnd(msg, IndexOf(msg, '{', pos)) < |msg|
    ensures Rest(msg, pos) == Front(msg, pos) + ("}" + Rest(msg, Next(msg, pos)))
  {
    var left := IndexOf(msg, '{', pos);
    RestAroundClosed(msg, pos, left, ExpressionEnd(msg, left));
  }

  /** The text from `pos` on is the literal, the braced expression and the text after its `}`. */
  lemma RestAroundClosed(msg: string, pos: nat, left: nat, right: nat)
    requires pos <= left < right < |msg| && msg[left] == '{' && msg[right] == '}'
    ensures Rest(msg, pos) == msg[pos..left] + "{" + msg[left + 1..right] + ("}" + Rest(msg, right + 1))
  {
    RestAround(msg, pos, left, right);
    assert Rest(msg, right) == "}" + Rest(msg, right + 1);
  }

  /** With the expression closed, whether the message ends open is decided after it. */
  lemma ClosingClosed(msg: string, pos: nat)
    requires pos <= |msg| + 1 && IndexOf(msg, '{', pos) >= 0
    requires ExpressionEnd(msg, IndexOf(msg, '{', pos)) < |msg|
    ensures Closing(msg, pos) == Closing(msg, Next(msg, pos))
  {
  }

  /** Rebuilding the first literal and expression puts back their braces. */
  lemma RebuildThen(msg: string, pos: nat, left: int, right: int, front: string)
    requires pos <= |msg| + 1 && left == IndexOf(msg, '{', pos) >= 0 && right == ExpressionEnd(msg, left)
    requires front == msg[pos..left] + "{" + msg[left + 1..right]
    ensures Rebuilt(msg, pos) == front + "}" + Rebuilt(msg, right + 1)
  {
    assert Split(msg, pos) == Then(msg[pos..left], msg[left + 1..right], Split(msg, right + 1));
  }

  /** An expression left open: the rebuilt text is the rest of the message and a `}`. */
  lemma RebuildOpen(msg: string, pos: nat)
    requires pos <= |msg| + 1 && IndexOf(msg, '{', pos) >= 0
    requires ExpressionEnd(msg, IndexOf(msg, '{', pos)) == |msg|
    ensures Rebuilt(msg, pos) == Rest(msg, pos) + Closing(msg, pos)
  {
    var left := IndexOf(msg, '{', pos);
    var right := ExpressionEnd(msg, left);
    var front := msg[pos..left] + "{" + msg[left + 1..right];
    assert Rebuilt(msg, pos) == front + "}" by {
      RebuildThen(msg, pos, left, right, front);
      assert Split(msg, right + 1) == Last([]);
    }
    assert Rest(msg, pos) == front by {
      RestAround(msg, pos, left, right);
      assert Rest(msg, right) == [];
    }
    assert Closing(msg, pos) == "}";
  }

  /** The items of a message as written into the array literal. */
  function LogpointItems(msg: string): (r: seq<string>)
    ensures |r| == 2 * ExpressionCount(Split(msg, 0)) + 1
  {
    Rendered(Items(Split(msg, 0)))
  }

  /** The `k`-th literal piece. */
  function LiteralAt(p: Pieces, k: nat): string
    requires k <= ExpressionCount(p)
  {
    if k == 0 then p.literal else LiteralAt(p.rest, k - 1)
  }

  /** The `k`-th expression piece. */
  function ExpressionAt(p: Pieces, k: nat): string
    requires k < ExpressionCount(p)
  {
    if k == 0 then p.expression else ExpressionAt(p.rest, k - 1)
  }

  /** Item `2k` is the `k`-th literal, and item `2k + 1` the `k`-th expression. */
  lemma {:induction false} ItemsAt(p: Pieces, k: nat)
    requires k <= ExpressionCount(p)
    ensures Items(p)[2 * k] == Quoted(LiteralAt(p, k))
    ensures k < ExpressionCount(p) ==> Items(p)[2 * k + 1] == Verbatim(ExpressionAt(p, k))
  {
    if k > 0 {
      ItemsAt(p.rest, k - 1);
      assert Items(p) == [Quoted(p.literal), Verbatim(p.expression)] + Items(p.rest);
    }
  }

  /** The expression a logpoint message converts to: its items as an array literal, folded by `ReduceCall`. */
  function LogpointExpression(msg: string): string {
    "[" + ItemsText(msg, 0) + "]" + ReduceCall
  }

  /** The items from `pos` on written out and separated by commas, read straight off the message. */
  function ItemsText(msg: string, pos: nat): string
    requires pos <= |msg| + 1
    decreases |msg| + 1 - pos
  {
    var left := IndexOf(msg, '{', pos);
    if left < 0 then JsonQuote(Rest(msg, pos))
    else
      var right := ExpressionEnd(msg, left);
      JsonQuote(msg[pos..left]) + "," + msg[left + 1..right] + "," + ItemsText(msg, right + 1)
  }

  /** The item list joined with commas is the text `ItemsText` reads off the message. */
  lemma {:induction false} JoinedItems(msg: string, pos: nat)
    requires pos <= |msg| + 1
    ensures Join(Rendered(Items(Split(msg, pos))), ",") == ItemsText(msg, pos)
    decreases |msg| + 1 - pos
  {
    if IndexOf(msg, '{', pos) < 0 {
      JoinedLast(msg, pos);
    } else {
      var literal, expression, next := FirstLiteral(msg, pos), FirstExpression(msg, pos), Next(msg, pos);
      var rest := Items(Split(msg, next));
      JoinedItems(msg, next);
      ItemsThen(msg, pos);
      RenderedCons(literal, expression, rest);
      JoinPair(JsonQuote(literal), expression, Rendered(rest), ",");
      ItemsTextThen(msg, pos);
    }
  }

  /** With no `{` left, the list is the one quoted literal, and so is the text. */
  lemma JoinedLast(msg: string, pos: nat)
    requires pos <= |msg| + 1 && IndexOf(msg, '{', pos) < 0
    ensures Join(Rendered(Items(Split(msg, pos))), ",") == ItemsText(msg, pos)
  {
    SplitLast(msg, pos);
    assert Rendered([Quoted(Rest(msg, pos))]) == [JsonQuote(Rest(msg, pos))];
  }

  /** The literal before the first `{` from `pos`. */
  function FirstLiteral(msg: string, pos: nat): string
    requires pos <= |msg| + 1 && IndexOf(msg, '{', pos) >= 0
  {
    msg[pos..IndexOf(msg, '{', pos)]
  }

  /** The expression after the first `{` from `pos`. */
  function FirstExpression(msg: string, pos: nat): string
    requires pos <= |msg| + 1 && IndexOf(msg, '{', pos) >= 0
  {
    var left := IndexOf(msg, '{', pos);
    msg[left + 1..ExpressionEnd(msg, left)]
  }

  /** The items from `pos` are the first literal, the first expression and the items after it. */
  lemma ItemsThen(msg: string, pos: nat)
    requires pos <= |msg| + 1 && IndexOf(msg, '{', pos) >= 0
    ensures Items(Split(msg, pos)) == [Quoted(FirstLiteral(msg, pos)), Verbatim(FirstExpression(msg, pos))]
      + Items(Split(msg, Next(msg, pos)))
  {
    SplitThen(msg, pos);
  }

  /** The text from `pos` is the first literal quoted, the first expression and the text after it. */
  lemma ItemsTextThen(msg: string, pos: nat)
    requires pos <= |msg| + 1 && IndexOf(msg, '{', pos) >= 0
    ensures ItemsText(msg, pos)
      == JsonQuote(FirstLiteral(msg, pos)) + "," + FirstExpression(msg, pos) + "," + ItemsText(msg, Next(msg, pos))
  {
    var left := IndexOf(msg, '{', pos);
    var right := ExpressionEnd(msg, left);
    assert FirstLiteral(msg, pos) == msg[pos..left] && FirstExpression(msg, pos) == msg[left + 1..right];
    assert Next(msg, pos) == right + 1;
  }

  /** Rendering a literal and an expression in front of some items puts their two strings in front. */
  lemma RenderedCons(literal: string, expression: string, rest: seq<Item>)
    ensures Rendered([Quoted(literal), Verbatim(expression)] + rest) == [JsonQuote(literal), expression] + Rendered(rest)
  {
    RenderedPair([], literal, expression);
    RenderedAppend([Quoted(literal), Verbatim(expression)], rest);
  }

  /** Joining two strings in front of a non-empty list puts a separator after each. */
  lemma JoinPair(a: string, b: string, rest: seq<string>, sep: string)
    requires rest != []
    ensures Join([a, b] + rest, sep) == a + sep + b + sep + Join(rest, sep)
  {
    assert ([a, b] + rest)[1..] == [b] + rest;
    assert ([b] + rest)[1..] == rest;
  }

  /** `convertLogpointMessage`: builds the item list by scanning for braces. */
  method ConvertLogpointMessage(msg: string) returns (r: string)
    ensures r == LogpointExpression(msg)
  {
    var items: seq<string> := [];
    ghost var parts: seq<Item> := [];
    var currentPos: nat := 0;
    while true
      invariant currentPos <= |msg| + 1
      invariant items == Rendered(parts)
      invariant parts + Items(Split(msg, currentPos)) == Items(Split(msg, 0))
      decreases |msg| + 1 - currentPos
    {
      var leftBrace := IndexOf(msg, '{', currentPos);
      if leftBrace < 0 {
        var literal := Substring(msg, currentPos, |msg|);
        LastStep(msg, currentPos, literal, items, parts);
        items := items + [JsonQuote(literal)];
        parts := parts + [Quoted(literal)];
        break;
      } else {
        var rightBrace := IndexOf(msg, '}', leftBrace + 1);
        ExpressionEndFrom(msg, leftBrace, rightBrace);
        if rightBrace < 0 {
          rightBrace := |msg|;
        }
        var literal, expression := Substring(msg, currentPos, leftBrace), Substring(msg, leftBrace + 1, rightBrace);
        ThenStep(msg, currentPos, leftBrace, rightBrace, literal, expression, items, parts);
        items := items + [JsonQuote(literal), expression];
        parts := parts + [Quoted(literal), Verbatim(expression)];
        currentPos := rightBrace + 1;
      }
    }
    JoinedItems(msg, 0);
    r := "[" + Join(items, ",") + "]" + ReduceCall;
  }

  /** The last literal completes the item list. */
  lemma LastStep(msg: string, pos: nat, literal: string, items: seq<string>, parts: seq<Item>)
    requires pos <= |msg| + 1 && IndexOf(msg, '{', pos) < 0
    requires literal == Substring(msg, pos, |msg|)
    requires items == Rendered(parts) && parts + Items(Split(msg, pos)) == Items(Split(msg, 0))
    ensures items + [JsonQuote(literal)] == Rendered(parts + [Quoted(literal)])
    ensures parts + [Quoted(literal)] == Items(Split(msg, 0))
  {
    assert Items(Split(msg, pos)) == [Quoted(literal)] by { LastItems(msg, pos, literal); }
    RenderedAppend(parts, [Quoted(literal)]);
  }

  /** A literal and the expression after it extend the item list, and the scan resumes after the expression. */
  lemma ThenStep(msg: string, pos: nat, left: int, right: int, literal: string, expression: string,
                 items: seq<string>, parts: seq<Item>)
    requires pos <= |msg| + 1 && left == IndexOf(msg, '{', pos) >= 0 && right == ExpressionEnd(msg, left)
    requires literal == Substring(msg, pos, left) && expression == Substring(msg, left + 1, right)
    requires items == Rendered(parts) && parts + Items(Split(msg, pos)) == Items(Split(msg, 0))
    ensures items + [JsonQuote(literal), expression] == Rendered(parts + [Quoted(literal), Verbatim(expression)])
    ensures parts + [Quoted(literal), Verbatim(expression)] + Items(Split(msg, right + 1)) == Items(Split(msg, 0))
  {
    var more := [Quoted(literal), Verbatim(expression)];
    assert parts + more + Items(Split(msg, right + 1)) == Items(Split(msg, 0)) by {
      ThenItems(msg, pos, left, right, literal, expression);
      Associative(parts, more, Items(Split(msg, right + 1)));
    }
    assert Rendered(parts + more) == items + [JsonQuote(literal), expression] by {
      RenderedPair(parts, literal, expression);
    }
  }

  /** The scan ends with the last literal: the pieces from `pos` are that literal alone. */
  lemma LastItems(msg: string, pos: nat, literal: string)
    requires pos <= |msg| + 1 && IndexOf(msg, '{', pos) < 0
    requires literal == Substring(msg, pos, |msg|)
    ensures Items(Split(msg, pos)) == [Quoted(literal)]
  {
    SplitLast(msg, pos);
    if pos <= |msg| {
      assert msg[pos..|msg|] == msg[pos..];
    }
  }

  /** The scan meets a `{`: the pieces from `pos` are a literal, an expression and the pieces after it. */
  lemma ThenItems(msg: string, pos: nat, left: int, right: int, literal: string, expression: string)
    requires pos <= |msg| + 1 && left == IndexOf(msg, '{', pos) >= 0 && right == ExpressionEnd(msg, left)
    requires literal == Substring(msg, pos, left) && expression == Substring(msg, left + 1, right)
    ensures Items(Split(msg, pos)) == [Quoted(literal), Verbatim(expression)] + Items(Split(msg, right + 1))
  {
    SplitThen(msg, pos);
    assert literal == msg[pos..left];
    assert expression == msg[left + 1..right];
  }

  /** Rendering a literal and an expression after some items appends their two strings. */
  lemma RenderedPair(parts: seq<Item>, literal: string, expression: string)
    ensures Rendered(parts + [Quoted(literal), Verbatim(expression)]) == Rendered(parts) + [JsonQuote(literal), expression]
  {
    var more := [Quoted(literal), Verbatim(expression)];
    RenderedAppend(parts, more);
    assert more[..1] == [Quoted(literal)];
    assert Rendered(more) == [JsonQuote(literal), expression];
  }
}
