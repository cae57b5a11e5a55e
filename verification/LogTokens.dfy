/** What counts as an item of a log pattern, when its error flag goes up, and that written tokens are
    read back. */
module LogTokens {
  import opened LogPattern

  // --- items -----------------------------------------------------------------------------------------

  predicate NameChar(c: char) { 'a' <= c <= 'z' || 'A' <= c <= 'Z' || c == '}' }

  predicate NameText(s: string) { forall k :: 0 <= k < |s| ==> NameChar(s[k]) }

  /** A name starts at i and ends before e. */
  predicate NameTo(p: string, i: nat, e: nat) {
    i <= e <= |p| && NameText(p[i..e]) && (e < |p| ==> !NameChar(p[e]))
  }

  lemma {:induction false} NameEndIs(p: string, i: nat, e: nat)
    requires i <= |p| && NameTo(p, i, e)
    ensures NameEnd(p, i) == e
    decreases |p| - i
  {
    if i < e {
      assert NameChar(p[i..e][0]);
      assert p[i + 1..e] == p[i..e][1..];
      NameEndIs(p, i + 1, e);
    }
  }

  lemma {:induction false} NameEndTo(p: string, i: nat)
    requires i <= |p|
    ensures NameTo(p, i, NameEnd(p, i))
    decreases |p| - i
  {
    var e := NameEnd(p, i);
    if i < e {
      NameEndTo(p, i + 1);
      assert p[i..e] == [p[i]] + p[i + 1..e];
    }
  }

  lemma {:induction false} ClosingIs(p: string, n: nat)
    requires n <= |p|
    ensures forall k :: n <= k < Closing(p, n) ==> p[k] != '}'
    decreases |p| - n
  {
    if n < |p| && p[n] != '}' { ClosingIs(p, n + 1); }
  }

  /** A brace opens behind the name of the item at i, and none closes. */
  ghost predicate LeftOpen(p: string, i: nat) {
    i < |p| && exists e: nat :: NameTo(p, i + 1, e) && e < |p| && p[e] == '{' && forall k :: e < k < |p| ==> p[k] != '}'
  }

  /** An item is a percent sign and all name characters behind it, and then, if a brace opens there, what
      is before the first brace that closes; unless none does. */
  lemma CutIs(p: string, i: nat)
    requires i < |p|
    ensures CutItem(p, i) == Unclosed <==> LeftOpen(p, i)
    ensures CutItem(p, i).Cut? ==>
      var c := CutItem(p, i); var e := i + 1 + |c.name|;
      && e <= |p| && c.name == p[i + 1..e] && NameTo(p, i + 1, e)
      && if e < |p| && p[e] == '{' then
           e < c.next - 1 && p[c.next - 1] == '}' && c.fmt == p[e + 1..c.next - 1] && '}' !in c.fmt
         else c.fmt == "" && c.next == e
  {
    var e := NameEnd(p, i + 1);
    NameEndTo(p, i + 1);
    if LeftOpen(p, i) {
      var e': nat :| NameTo(p, i + 1, e') && e' < |p| && p[e'] == '{' && forall k :: e' < k < |p| ==> p[k] != '}';
      NameEndIs(p, i + 1, e');
    }
    if e < |p| { ClosingIs(p, e + 1); }
  }

  // --- the error flag --------------------------------------------------------------------------------

  // Where the scan goes on from i.
  function After(p: string, i: nat): (j: nat)
    requires i < |p|
    ensures i < j <= |p|
  {
    if p[i] != '%' then i + 1
    else if Doubled(p, i) then i + 2
    else match CutItem(p, i) case Unclosed => i + 1 case Cut(_, _, _, next) => next
  }

  /** The scan from i on comes to j. */
  predicate Comes(p: string, i: nat, j: nat)
    requires i <= |p|
    decreases |p| - i
  {
    i == j || (i < |p| && Comes(p, After(p, i), j))
  }

  // A percent sign that begins an item which is left open.
  ghost predicate Offends(p: string, i: nat, j: nat)
    requires i <= |p|
  {
    j < |p| && Comes(p, i, j) && p[j] == '%' && !Doubled(p, j) && LeftOpen(p, j)
  }

  /** The error flag goes up exactly when some percent sign that begins an item has an opening brace
      behind its name with no closing one after it. */
  lemma {:induction false} ErrorIff(p: string, i: nat, text: string)
    requires i <= |p|
    ensures Tokens(p, i, text).1 <==> exists j: nat :: Offends(p, i, j)
    decreases |p| - i
  {
    if i < |p| {
      var j := After(p, i);
      if p[i] == '%' && !Doubled(p, i) { CutIs(p, i); }
      if p[i] == '%' && !Doubled(p, i) && CutItem(p, i) == Unclosed {
        assert Offends(p, i, i);
      } else {
        ErrorIff(p, j, if p[i] != '%' then text + [p[i]] else if Doubled(p, i) then text + ['%'] else "");
        assert forall k: nat :: Offends(p, j, k) ==> Offends(p, i, k);
        assert forall k: nat :: Offends(p, i, k) ==> Offends(p, j, k);
      }
    }
  }

  /** A mark stands for a brace that was not closed exactly when the flag is up. */
  lemma {:induction false} BadIff(p: string, i: nat, text: string)
    requires i <= |p|
    ensures Bad in Tokens(p, i, text).0 <==> Tokens(p, i, text).1
    decreases |p| - i
  {
    if i < |p| {
      if p[i] != '%' {
        BadIff(p, i + 1, text + [p[i]]);
      } else if Doubled(p, i) {
        BadIff(p, i + 2, text + ['%']);
      } else if CutItem(p, i).Cut? {
        BadIff(p, CutItem(p, i).next, "");
      }
    }
  }

  // --- reading back what was written -------------------------------------------------------------------

  /** A token that can be told from what comes after it. */
  predicate Clear(t: Token, rest: string) {
    match t
    case Literal(text) => text != ""
    case Item(name, fmt) =>
      && NameText(name) && '}' !in fmt
      && (fmt == "" && rest != "" ==> !NameChar(rest[0]) && rest[0] != '{' && (name == "" ==> rest[0] != '%'))
    case Bad => false
  }

  /** Tokens that can be told apart when they are written. */
  predicate Canonical(ts: seq<Token>) {
    ts == [] ||
    (Clear(ts[0], Rendered(ts[1..])) && Canonical(ts[1..]) && (ts[0].Literal? && |ts| > 1 ==> !ts[1].Literal?))
  }

  // The pattern has this at i.
  predicate At(p: string, i: nat, w: string) {
    i + |w| <= |p| && forall k :: 0 <= k < |w| ==> p[i + k] == w[k]
  }

  lemma AtSplit(p: string, i: nat, v: string, w: string)
    requires At(p, i, v + w)
    ensures At(p, i, v) && At(p, i + |v|, w)
  {
    assert forall k :: 0 <= k < |v| ==> (v + w)[k] == v[k];
    forall k | 0 <= k < |w|
      ensures p[i + |v| + k] == w[k]
    {
      assert (v + w)[|v| + k] == w[k];
    }
  }

  lemma AtSlice(p: string, i: nat, w: string)
    requires At(p, i, w)
    ensures i + |w| <= |p| && p[i..i + |w|] == w
  {
  }

  lemma AtFirst(p: string, i: nat, w: string)
    requires At(p, i, w) && w != ""
    ensures i < |p| && p[i] == w[0]
  {
    assert p[i + 0] == w[0];
  }

  function Char(c: char): string { if c == '%' then "%%" else [c] }

  lemma {:induction false} EscapedCons(c: char, s: string)
    ensures Escaped([c] + s) == Char(c) + Escaped(s)
  {
    var t := [c] + s;
    if s == "" {
      assert t[..0] == "";
    } else {
      assert t[..|t| - 1] == [c] + s[..|s| - 1];
      EscapedCons(c, s[..|s| - 1]);
    }
  }

  // One character that was written is collected again.
  lemma CharIsRead(p: string, i: nat, text: string, c: char)
    requires At(p, i, Char(c))
    ensures i + |Char(c)| <= |p| && Tokens(p, i, text) == Tokens(p, i + |Char(c)|, text + [c])
  {
    AtFirst(p, i, Char(c));
    if c == '%' { assert p[i + 1] == Char(c)[1]; }
  }

  lemma TextOneMore(text: string, s: string)
    requires s != ""
    ensures [s[0]] + s[1..] == s && text + [s[0]] + s[1..] == text + s
  {
  }

  lemma {:induction false} TextIsRead(p: string, i: nat, text: string, s: string)
    requires At(p, i, Escaped(s))
    ensures i + |Escaped(s)| <= |p| && Tokens(p, i, text) == Tokens(p, i + |Escaped(s)|, text + s)
    decreases |s|
  {
    if s == "" {
      assert text + s == text;
    } else {
      var c := s[0];
      TextOneMore(text, s);
      EscapedCons(c, s[1..]);
      hide At, Tokens, Escaped, Char;
      AtSplit(p, i, Char(c), Escaped(s[1..]));
      CharIsRead(p, i, text, c);
      TextIsRead(p, i + |Char(c)|, text + [c], s[1..]);
    }
  }

  lemma {:induction false} ClosingStops(p: string, n: nat, k: nat)
    requires n <= k < |p| && p[k] == '}'
    ensures Closing(p, n) <= k
    decreases k - n
  {
    if n < k && p[n] != '}' { ClosingStops(p, n + 1, k); }
  }

  // A name that was written ends where it did.
  lemma NameIsRead(p: string, n: nat, name: string)
    requires At(p, n, name) && NameText(name) && var e := n + |name|; e < |p| ==> !NameChar(p[e])
    ensures var e := n + |name|; e <= |p| && p[n..e] == name && NameEnd(p, n) == e
  {
    AtSlice(p, n, name);
    NameEndIs(p, n, n + |name|);
  }

  // So does a format.
  lemma FormatIsRead(p: string, n: nat, fmt: string)
    requires At(p, n, fmt) && '}' !in fmt && n + |fmt| < |p| && p[n + |fmt|] == '}'
    ensures p[n..n + |fmt|] == fmt && Closing(p, n) == n + |fmt|
  {
    var k := n + |fmt|;
    AtSlice(p, n, fmt);
    forall j | n <= j < k
      ensures p[j] != '}'
    {
      assert p[n + (j - n)] == fmt[j - n];
      assert fmt[j - n] in fmt;
    }
    ClosingIs(p, n);
    ClosingStops(p, n, k);
  }

  // What comes after the token at i.
  predicate Then(p: string, i: nat, t: Token, rest: string) {
    At(p, i, Written(t)) && At(p, i + |Written(t)|, rest) && i + |Written(t)| + |rest| == |p|
  }

  lemma BareIsCut(p: string, i: nat, name: string, rest: string)
    requires Then(p, i, Item(name, ""), rest) && Clear(Item(name, ""), rest)
    ensures var next := i + 1 + |name|;
      next <= |p| && p[i] == '%' && !Doubled(p, i) && CutItem(p, i) == Cut(name, "", false, next)
  {
    var next := i + 1 + |name|;
    assert Written(Item(name, "")) == "%" + name;
    hide At;
    AtSplit(p, i, "%", name);
    AtFirst(p, i, "%");
    if rest != "" { AtFirst(p, next, rest); }
    if name != "" { AtFirst(p, i + 1, name); }
    NameIsRead(p, i + 1, name);
  }

  lemma BracedIsCut(p: string, i: nat, name: string, fmt: string, rest: string)
    requires Then(p, i, Item(name, fmt), rest) && Clear(Item(name, fmt), rest) && fmt != ""
    ensures var next := i + |Written(Item(name, fmt))|;
      next <= |p| && p[i] == '%' && !Doubled(p, i) && CutItem(p, i) == Cut(name, fmt, false, next)
  {
    assert NameText(name) && '}' !in fmt && At(p, i, Written(Item(name, fmt)));
    hide At, Written, Then, Clear, NameText, CutItem;
    BracesAreThere(p, i, name, fmt);
    BracesAreCut(p, i, name, fmt, i + 1 + |name|);
  }

  lemma BracesAreCut(p: string, i: nat, name: string, fmt: string, e: nat)
    requires e == i + 1 + |name| && NameText(name) && '}' !in fmt && fmt != ""
    requires e + 1 + |fmt| < |p| && At(p, i + 1, name) && p[e] == '{' && At(p, e + 1, fmt) && p[e + 1 + |fmt|] == '}'
    ensures !Doubled(p, i) && CutItem(p, i) == Cut(name, fmt, false, e + |fmt| + 2)
  {
    hide At;
    if name != "" { AtFirst(p, i + 1, name); }
    NameIsRead(p, i + 1, name);
    FormatIsRead(p, e + 1, fmt);
  }

  lemma BracesAreThere(p: string, i: nat, name: string, fmt: string)
    requires fmt != "" && At(p, i, Written(Item(name, fmt)))
    ensures var e := i + 1 + |name|; var k := e + 1 + |fmt|;
      && k < |p| && p[i] == '%' && At(p, i + 1, name) && p[e] == '{' && At(p, e + 1, fmt) && p[k] == '}'
      && |Written(Item(name, fmt))| == |name| + |fmt| + 3
  {
    var e := i + 1 + |name|;
    assert Written(Item(name, fmt)) == "%" + name + ("{" + fmt + "}");
    hide At;
    AtSplit(p, i, "%" + name, "{" + fmt + "}");
    AtSplit(p, i, "%", name);
    AtFirst(p, i, "%");
    AtSplit(p, e, "{" + fmt, "}");
    AtSplit(p, e, "{", fmt);
    AtFirst(p, e, "{");
    AtFirst(p, e + 1 + |fmt|, "}");
  }

  lemma ItemIsRead(p: string, i: nat, text: string, t: Token, rest: string, more: seq<Token>)
    requires Then(p, i, t, rest) && Clear(t, rest) && t.Item?
    requires Tokens(p, i + |Written(t)|, "") == (more, false)
    ensures Tokens(p, i, text) == (Flush(text) + [t] + more, false)
  {
    if t.fmt == "" {
      BareIsCut(p, i, t.name, rest);
    } else {
      BracedIsCut(p, i, t.name, t.fmt, rest);
    }
  }

  lemma RenderedIs(ts: seq<Token>, w: string, rest: string)
    requires |ts| > 0 && w == Written(ts[0]) && rest == Rendered(ts[1..])
    ensures Rendered(ts) == w + rest
  {
  }

  lemma FirstWritten(p: string, i: nat, ts: seq<Token>, w: string, rest: string)
    requires |ts| > 0 && At(p, i, Rendered(ts)) && i + |Rendered(ts)| == |p|
    requires w == Written(ts[0]) && rest == Rendered(ts[1..])
    ensures Then(p, i, ts[0], rest) && At(p, i + |w|, rest) && i + |w| + |rest| == |p|
  {
    RenderedIs(ts, w, rest);
    hide At, Rendered, Written;
    AtSplit(p, i, w, rest);
  }

  lemma CanonicalIs(ts: seq<Token>)
    requires Canonical(ts) && ts != []
    ensures Clear(ts[0], Rendered(ts[1..])) && Canonical(ts[1..]) && !ts[0].Bad?
    ensures ts[0].Literal? ==> ts[0].text != "" && (ts[1..] != [] ==> !ts[1..][0].Literal?)
  {
  }

  lemma LiteralIsRead(p: string, i: nat, s: string, rest: string)
    requires Then(p, i, Literal(s), rest)
    ensures i + |Written(Literal(s))| <= |p| && Tokens(p, i, "") == Tokens(p, i + |Written(Literal(s))|, s)
  {
    TextIsRead(p, i, "", s);
    assert "" + s == s;
  }

  // What has been collected when the scan is past a token.
  function Carried(t: Token): string {
    if t.Literal? then t.text else ""
  }

  lemma LiteralJoins(ts: seq<Token>, s: string)
    requires |ts| > 0 && ts[0] == Literal(s) && s != ""
    ensures Flush(s) + ts[1..] == ts && Flush("") + ts == ts
  {
  }

  lemma ItemJoins(ts: seq<Token>, text: string)
    requires |ts| > 0
    ensures Flush(text) + [ts[0]] + ts[1..] == Flush(text) + ts && Flush("") + ts[1..] == ts[1..]
  {
    assert ts == [ts[0]] + ts[1..];
  }

  lemma LiteralStep(p: string, i: nat, ts: seq<Token>, s: string, rest: string)
    requires |ts| > 0 && ts[0] == Literal(s) && s != "" && Then(p, i, ts[0], rest)
    requires Tokens(p, i + |Written(ts[0])|, s) == (Flush(s) + ts[1..], false)
    ensures Tokens(p, i, "") == (Flush("") + ts, false)
  {
    LiteralJoins(ts, s);
    hide At, Tokens, Written, Flush, Then;
    LiteralIsRead(p, i, s, rest);
  }

  lemma ItemStep(p: string, i: nat, text: string, ts: seq<Token>, rest: string)
    requires |ts| > 0 && ts[0].Item? && Then(p, i, ts[0], rest) && Clear(ts[0], rest)
    requires Tokens(p, i + |Written(ts[0])|, "") == (Flush("") + ts[1..], false)
    ensures Tokens(p, i, text) == (Flush(text) + ts, false)
  {
    ItemJoins(ts, text);
    hide At, Tokens, Written, Flush, Then, Clear;
    ItemIsRead(p, i, text, ts[0], rest, ts[1..]);
  }

  lemma WrittenStep(p: string, i: nat, text: string, ts: seq<Token>, rest: string)
    requires |ts| > 0 && Then(p, i, ts[0], rest) && Clear(ts[0], rest) && (text != "" ==> !ts[0].Literal?)
    requires Tokens(p, i + |Written(ts[0])|, Carried(ts[0])) == (Flush(Carried(ts[0])) + ts[1..], false)
    ensures Tokens(p, i, text) == (Flush(text) + ts, false)
  {
    hide At, Tokens, Written, Flush, Then;
    if ts[0].Literal? {
      LiteralStep(p, i, ts, ts[0].text, rest);
    } else {
      ItemStep(p, i, text, ts, rest);
    }
  }

  lemma NothingIsRead(p: string, i: nat, text: string)
    requires i == |p|
    ensures Tokens(p, i, text) == (Flush(text) + [], false)
  {
    assert Flush(text) + [] == Flush(text);
  }

  lemma {:induction false} WrittenIsReadAt(p: string, i: nat, text: string, ts: seq<Token>)
    requires At(p, i, Rendered(ts)) && i + |Rendered(ts)| == |p| && Canonical(ts)
    requires text != "" && ts != [] ==> !ts[0].Literal?
    ensures Tokens(p, i, text) == (Flush(text) + ts, false)
    decreases |ts|, 1
  {
    if |ts| == 0 {
      NothingIsRead(p, i, text);
    } else {
      WrittenOn(p, i, text, ts, ts[1..]);
    }
  }

  lemma {:induction false} WrittenOn(p: string, i: nat, text: string, ts: seq<Token>, rest: seq<Token>)
    requires |ts| > 0 && rest == ts[1..]
    requires At(p, i, Rendered(ts)) && i + |Rendered(ts)| == |p| && Canonical(ts)
    requires text != "" ==> !ts[0].Literal?
    ensures Tokens(p, i, text) == (Flush(text) + ts, false)
    decreases |ts|, 0
  {
    hide *;
    FirstWritten(p, i, ts, Written(ts[0]), Rendered(rest));
    CanonicalIs(ts);
    CarriedIs(ts[0]);
    WrittenIsReadAt(p, i + |Written(ts[0])|, Carried(ts[0]), rest);
    WrittenStep(p, i, text, ts, Rendered(rest));
  }

  lemma CarriedIs(t: Token)
    ensures Carried(t) != "" ==> t.Literal?
  {
  }

  /** Tokens that can be told apart come back from the pattern they are written as. */
  lemma WrittenIsRead(ts: seq<Token>)
    requires Canonical(ts)
    ensures Tokens(Rendered(ts), 0, "") == (ts, false)
  {
    WrittenIsReadAt(Rendered(ts), 0, "", ts);
    assert [] + ts == ts;
  }
}
