/** Cutting a log pattern into literal text and items, and writing the pattern back. */
module LogPattern {

  /** An item has a name and perhaps a format in braces; Bad stands where a brace was not closed. */
  datatype Token = Literal(text: string) | Item(name: string, fmt: string) | Bad

  predicate IsAlpha(c: char) { 'a' <= c <= 'z' || 'A' <= c <= 'Z' }

  /** Where a name that starts here ends.  A closing brace counts as part of it. */
  function NameEnd(p: string, n: nat): (e: nat)
    requires n <= |p|
    ensures n <= e <= |p|
    decreases |p| - n
  {
    if n < |p| && (IsAlpha(p[n]) || p[n] == '}') then NameEnd(p, n + 1) else n
  }

  /** Where the next closing brace is, or the end. */
  function Closing(p: string, n: nat): (k: nat)
    requires n <= |p|
    ensures n <= k <= |p| && (k < |p| ==> p[k] == '}')
    decreases |p| - n
  {
    if n < |p| && p[n] != '}' then Closing(p, n + 1) else n
  }

  function Flush(text: string): seq<Token> { if text == "" then [] else [Literal(text)] }

  // One item from a percent sign on: its name, its format, whether its braces are empty, and where
  // it ends; or a brace that is not closed.
  datatype Cut = Cut(name: string, fmt: string, hollow: bool, next: nat) | Unclosed

  function CutItem(p: string, i: nat): (c: Cut)
    requires i < |p|
    ensures c.Cut? ==> i < c.next <= |p|
  {
    var e := NameEnd(p, i + 1);
    if e < |p| && p[e] == '{' then
      var k := Closing(p, e + 1);
      if k == |p| then Unclosed else Cut(p[i + 1..e], p[e + 1..k], k == e + 1, k + 1)
    else Cut(p[i + 1..e], "", false, e)
  }

  predicate Doubled(p: string, i: nat) { i + 1 < |p| && p[i + 1] == '%' }

  /** The tokens from i on, with literal text already collected, and whether a brace was not
      closed.  After that the rest counts as text. */
  function Tokens(p: string, i: nat, text: string): (seq<Token>, bool)
    requires i <= |p|
    decreases |p| - i
  {
    if i == |p| then (Flush(text), false)
    else if p[i] != '%' then Tokens(p, i + 1, text + [p[i]])
    else if Doubled(p, i) then Tokens(p, i + 2, text + ['%'])
    else
      match CutItem(p, i)
      case Unclosed => ([Bad] + Tokens(p, i + 1, text).0, true)
      case Cut(name, fmt, _, next) =>
        var (rest, error) := Tokens(p, next, "");
        (Flush(text) + [Item(name, fmt)] + rest, error)
  }

  /** How many items have braces with nothing between. */
  function Hollow(p: string, i: nat): nat
    requires i <= |p|
    decreases |p| - i
  {
    if i == |p| then 0
    else if p[i] != '%' then Hollow(p, i + 1)
    else if Doubled(p, i) then Hollow(p, i + 2)
    else
      match CutItem(p, i)
      case Unclosed => Hollow(p, i + 1)
      case Cut(_, _, hollow, next) => (if hollow then 1 else 0) + Hollow(p, next)
  }

  /** How many percent signs begin an item whose brace is not closed. */
  function Lost(p: string, i: nat): nat
    requires i <= |p|
    decreases |p| - i
  {
    if i == |p| then 0
    else if p[i] != '%' then Lost(p, i + 1)
    else if Doubled(p, i) then Lost(p, i + 2)
    else
      match CutItem(p, i)
      case Unclosed => 1 + Lost(p, i + 1)
      case Cut(_, _, _, next) => Lost(p, next)
  }

  // --- writing back ----------------------------------------------------------------------------------

  /** Text as it is written in a pattern. */
  function Escaped(text: string): string {
    if text == "" then ""
    else Escaped(text[..|text| - 1]) + if text[|text| - 1] == '%' then "%%" else [text[|text| - 1]]
  }

  function Written(t: Token): string {
    match t
    case Literal(text) => Escaped(text)
    case Item(name, fmt) => "%" + name + if fmt == "" then "" else "{" + fmt + "}"
    case Bad => ""
  }

  function Rendered(ts: seq<Token>): string {
    if ts == [] then "" else Written(ts[0]) + Rendered(ts[1..])
  }

  lemma {:induction false} RenderedConcat(ts: seq<Token>, us: seq<Token>)
    ensures Rendered(ts + us) == Rendered(ts) + Rendered(us)
  {
    if ts == [] {
      assert ts + us == us;
    } else {
      assert (ts + us)[1..] == ts[1..] + us;
      RenderedConcat(ts[1..], us);
    }
  }

  lemma RenderedFlush(text: string, more: seq<Token>)
    ensures Rendered(Flush(text) + more) == Escaped(text) + Rendered(more)
  {
    RenderedConcat(Flush(text), more);
    if text != "" { assert Rendered([Literal(text)]) == Escaped(text) + Rendered([]); }
  }

  lemma Join(p: string, i: nat, j: nat, k: nat)
    requires i <= j <= k <= |p|
    ensures p[i..j] + p[j..k] == p[i..k]
  {
  }

  lemma Assoc(a: string, b: string, c: string)
    ensures (a + b) + c == a + (b + c)
  {
  }

  // An item with braces as it stands in the pattern.
  lemma BracesAreWritten(p: string, i: nat, e: nat, k: nat)
    requires i < e < k < |p| && p[i] == '%' && p[e] == '{' && p[k] == '}'
    ensures "%" + p[i + 1..e] + ("{" + p[e + 1..k] + "}") == p[i..k + 1]
  {
    assert p[i..e] == "%" + p[i + 1..e];
    assert p[e..k] == "{" + p[e + 1..k];
    assert p[e..k + 1] == p[e..k] + "}";
    Join(p, i, e, k + 1);
  }

  // An item as it stands in the pattern, but for empty braces.
  lemma CutIsWritten(p: string, i: nat)
    requires i < |p| && p[i] == '%' && CutItem(p, i).Cut?
    ensures var c := CutItem(p, i); var w := Written(Item(c.name, c.fmt));
      if c.hollow then |w| + 2 == c.next - i else w == p[i..c.next]
  {
    var c, e := CutItem(p, i), NameEnd(p, i + 1);
    if e < |p| && p[e] == '{' {
      var k := Closing(p, e + 1);
      BracesAreWritten(p, i, e, k);
      assert Written(Item(c.name, c.fmt)) == if c.hollow then "%" + c.name else "%" + c.name + ("{" + c.fmt + "}");
    } else {
      assert Written(Item(c.name, c.fmt)) == "%" + c.name + "";
      assert p[i..e] == "%" + p[i + 1..e];
    }
  }

  // What tokens from i on come to, after text that was collected before, when so many characters are
  // lost.
  ghost predicate Keeps(r: string, before: string, p: string, i: nat, lost: nat)
    requires i <= |p|
  {
    |r| + lost == |before| + |p| - i && (lost == 0 ==> r == before + p[i..])
  }

  function Missing(p: string, i: nat): nat
    requires i <= |p|
  {
    2 * Hollow(p, i) + Lost(p, i)
  }

  lemma KeepsText(r: string, before: string, more: string, p: string, i: nat, next: nat, lost: nat)
    requires i <= next <= |p| && Keeps(r, before + more, p, next, lost) && more == p[i..next]
    ensures Keeps(r, before, p, i, lost)
  {
    Join(p, i, next, |p|);
    Assoc(before, more, p[next..]);
    assert p[next..|p|] == p[next..] && p[i..|p|] == p[i..];
  }

  lemma KeepsItem(r: string, before: string, w: string, p: string, i: nat, next: nat, lost: nat, empty: bool)
    requires i <= next <= |p| && Keeps(r, "", p, next, lost)
    requires if empty then |w| + 2 == next - i else w == p[i..next]
    ensures Keeps(before + (w + r), before, p, i, lost + if empty then 2 else 0)
  {
    Join(p, i, next, |p|);
    assert p[next..|p|] == p[next..] && p[i..|p|] == p[i..];
    assert "" + p[next..] == p[next..];
  }

  /** Writing the tokens back loses two characters for each pair of empty braces, the percent sign of each
      item with a brace that is not closed, and nothing else. */
  lemma {:induction false} NothingElseLost(p: string, i: nat, text: string)
    requires i <= |p|
    ensures Keeps(Rendered(Tokens(p, i, text).0), Escaped(text), p, i, Missing(p, i))
    ensures Tokens(p, i, text).1 <==> Lost(p, i) > 0
    decreases |p| - i
  {
    hide Keeps, Rendered, Escaped, Flush;
    if i == |p| {
      EndKeeps(p, text);
    } else if p[i] != '%' {
      NothingElseLost(p, i + 1, text + [p[i]]);
      TextKeeps(p, i, text, p[i], i + 1);
    } else if Doubled(p, i) {
      NothingElseLost(p, i + 2, text + ['%']);
      TextKeeps(p, i, text, '%', i + 2);
    } else if CutItem(p, i) == Unclosed {
      NothingElseLost(p, i + 1, text);
      UnclosedKeeps(p, i, text);
    } else {
      NothingElseLost(p, CutItem(p, i).next, "");
      CutKeeps(p, i, text);
    }
  }

  // One character, or a doubled percent sign.
  lemma TextKeeps(p: string, i: nat, text: string, c: char, next: nat)
    requires i < |p| && if p[i] != '%' then c == p[i] && next == i + 1 else Doubled(p, i) && c == '%' && next == i + 2
    requires Keeps(Rendered(Tokens(p, next, text + [c]).0), Escaped(text + [c]), p, next, Missing(p, next))
    ensures Keeps(Rendered(Tokens(p, i, text).0), Escaped(text), p, i, Missing(p, i))
  {
    EscapedSnoc(text, c);
    assert p[i..next] == if c == '%' then "%%" else [c];
    hide Keeps, Rendered, Escaped;
    KeepsText(Rendered(Tokens(p, i, text).0), Escaped(text), p[i..next], p, i, next, Missing(p, next));
  }

  lemma EndKeeps(p: string, text: string)
    ensures Keeps(Rendered(Tokens(p, |p|, text).0), Escaped(text), p, |p|, 0)
  {
    RenderedFlush(text, []);
    assert Flush(text) + [] == Flush(text);
  }

  lemma UnclosedKeeps(p: string, i: nat, text: string)
    requires i < |p| && p[i] == '%' && !Doubled(p, i) && CutItem(p, i) == Unclosed
    requires Keeps(Rendered(Tokens(p, i + 1, text).0), Escaped(text), p, i + 1, Missing(p, i + 1))
    ensures Keeps(Rendered(Tokens(p, i, text).0), Escaped(text), p, i, Missing(p, i))
  {
    BadIsNothing(Tokens(p, i + 1, text).0);
  }

  lemma BadIsNothing(ts: seq<Token>)
    ensures Rendered([Bad] + ts) == Rendered(ts)
  {
    assert ([Bad] + ts)[1..] == ts;
  }

  lemma CutKeeps(p: string, i: nat, text: string)
    requires i < |p| && p[i] == '%' && !Doubled(p, i) && CutItem(p, i).Cut?
    requires var next := CutItem(p, i).next;
      Keeps(Rendered(Tokens(p, next, "").0), Escaped(""), p, next, Missing(p, next))
    ensures Keeps(Rendered(Tokens(p, i, text).0), Escaped(text), p, i, Missing(p, i))
  {
    var c := CutItem(p, i);
    var item, rest := Item(c.name, c.fmt), Tokens(p, c.next, "").0;
    CutIsWritten(p, i);
    RenderedCut(text, item, rest);
    KeepsItem(Rendered(rest), Escaped(text), Written(item), p, i, c.next, Missing(p, c.next), c.hollow);
  }

  lemma EscapedSnoc(text: string, c: char)
    ensures Escaped(text + [c]) == Escaped(text) + if c == '%' then "%%" else [c]
  {
    assert (text + [c])[..|text|] == text;
  }

  lemma RenderedCut(text: string, item: Token, rest: seq<Token>)
    ensures Rendered(Flush(text) + [item] + rest) == Escaped(text) + (Written(item) + Rendered(rest))
  {
    var more := [item] + rest;
    assert Flush(text) + [item] + rest == Flush(text) + more;
    assert more[1..] == rest;
    hide Flush, Escaped, Written;
    RenderedFlush(text, more);
  }

  /** A pattern comes back exactly when it has no unclosed brace and no empty braces. */
  lemma RoundTripIff(p: string)
    ensures Rendered(Tokens(p, 0, "").0) == p <==> !Tokens(p, 0, "").1 && Hollow(p, 0) == 0
  {
    NothingElseLost(p, 0, "");
    assert p[0..] == p;
  }
}
