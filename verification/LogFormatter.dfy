/** The loops that cut a log pattern, with their indices and status. */
module LogFormatters {
  import opened LogPattern

  class LogFormatter {
    const m_pattern: string
    var m_error: bool
    var vec: seq<Token>

    constructor (pattern: string)
      ensures m_pattern == pattern && !m_error && vec == []
    {
      m_pattern, m_error, vec := pattern, false, [];
    }

    // The inner loop, from the percent sign at i.  The status says whether a brace is open.
    method ScanItem(i: nat) returns (str: string, fmt: string, n: nat, open: bool)
      requires i < |m_pattern|
      ensures if open then CutItem(m_pattern, i) == Unclosed
              else CutItem(m_pattern, i).Cut? &&
                   var c := CutItem(m_pattern, i); (c.name, c.fmt, c.next) == (str, fmt, n)
    {
      n, open, str, fmt := i + 1, false, "", "";
      var fmt_start := 0;
      while n < |m_pattern|
        invariant i < n <= |m_pattern| && fmt == ""
        invariant !open ==> NameEnd(m_pattern, i + 1) == NameEnd(m_pattern, n)
        invariant !open ==> str == if n == |m_pattern| && n > i + 1 then m_pattern[i + 1..] else ""
        invariant open ==> NameEnd(m_pattern, i + 1) == fmt_start < n && m_pattern[fmt_start] == '{'
        invariant open ==> Closing(m_pattern, fmt_start + 1) == Closing(m_pattern, n)
        invariant open && fmt_start > i + 1 ==> str == m_pattern[i + 1..fmt_start]
        invariant open && fmt_start == i + 1 && n < |m_pattern| ==> str == ""
      {
        var c := m_pattern[n];
        if !open && !IsAlpha(c) && c != '{' && c != '}' {
          str := m_pattern[i + 1..n];
          return;
        }
        if !open {
          if c == '{' {
            str := m_pattern[i + 1..n];
            open := true;
            fmt_start := n;
            n := n + 1;
            continue;
          }
        } else if c == '}' {
          fmt := m_pattern[fmt_start + 1..n];
          open := false;
          n := n + 1;
          return;
        }
        n := n + 1;
        if n == |m_pattern| && str == "" { str := m_pattern[i + 1..]; }
      }
      assert m_pattern[i + 1..] == m_pattern[i + 1..|m_pattern|];
    }

    method Init()
      requires !m_error && vec == []
      modifies this`m_error, this`vec
      ensures (vec, m_error) == Tokens(m_pattern, 0, "")
    {
      var nstr, i := "", 0;
      assert [] + Tokens(m_pattern, 0, "").0 == Tokens(m_pattern, 0, "").0;
      while i < |m_pattern|
        invariant i <= |m_pattern|
        invariant var (rest, error) := Tokens(m_pattern, i, nstr);
          Tokens(m_pattern, 0, "") == (vec + rest, m_error || error)
        decreases |m_pattern| - i
      {
        if m_pattern[i] != '%' {
          nstr := nstr + [m_pattern[i]];
          i := i + 1;
          continue;
        }
        if i + 1 < |m_pattern| && m_pattern[i + 1] == '%' {
          nstr := nstr + [m_pattern[i]];
          i := i + 2;
          continue;
        }
        ghost var rest := Tokens(m_pattern, i, nstr).0;
        ghost var before := vec;
        var str, fmt, n, open := ScanItem(i);
        if !open {
          vec := vec + Flush(nstr) + [Item(str, fmt)];
          nstr := "";
          i := n;
        } else {
          m_error := true;
          vec := vec + [Bad];
          i := i + 1;
        }
        assert before + rest == vec + Tokens(m_pattern, i, nstr).0;
      }
      vec := vec + Flush(nstr);
    }
  }
}
