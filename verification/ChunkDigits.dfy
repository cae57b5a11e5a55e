/** Which bytes are digits and parts of words, and what number digits stand for. */
module ChunkDigits {
  import opened ChunkSpec
  import opened ChunkRuns

  const DIGITS := "0123456789abcdef"
  const CAPITALS := "ABCDEF"
  const SYMBOLS := "!#$%&'*+-.^_`|~"

  predicate In(b: Byte, text: string) { b as char in text }

  function Lower(b: Byte): Byte { if 65 <= b <= 90 then b + 32 else b }

  /** A digit is a decimal one or a letter from a to f, small or capital; its value is its place among
      these. */
  lemma DigitValue(b: Byte)
    ensures IsHex(b) <==> In(b, DIGITS) || In(b, CAPITALS)
    ensures IsHex(b) ==> DIGITS[HexDigit(b)] == Lower(b) as char
  {
    assert 48 <= b <= 57 ==> DIGITS[b - 48] == b as char;
    assert 65 <= b <= 70 ==> CAPITALS[b - 65] == b as char && DIGITS[b - 55] == (b + 32) as char;
    assert 97 <= b <= 102 ==> DIGITS[b - 87] == b as char;
  }

  /** What names and values are made of: letters, decimal digits and fifteen symbols (section 5.6.2 of
      RFC 9110). */
  lemma TokenIs(b: Byte)
    ensures IsToken(b) <==>
      var c := b as char; 'a' <= c <= 'z' || 'A' <= c <= 'Z' || '0' <= c <= '9' || In(b, SYMBOLS)
  {
    if In(b, SYMBOLS) {
      var i :| 0 <= i < 15 && SYMBOLS[i] == b as char;
    } else {
      assert SYMBOLS[0] == '!' && SYMBOLS[1] == '#' && SYMBOLS[2] == '$' && SYMBOLS[3] == '%' && SYMBOLS[4] == '&';
      assert SYMBOLS[5] == '\'' && SYMBOLS[6] == '*' && SYMBOLS[7] == '+' && SYMBOLS[8] == '-' && SYMBOLS[9] == '.';
      assert SYMBOLS[10] == '^' && SYMBOLS[11] == '_' && SYMBOLS[12] == '`' && SYMBOLS[13] == '|' && SYMBOLS[14] == '~';
    }
  }

  // --- any spelling of a number --------------------------------------------------------------------

  predicate AllHex(ds: seq<Byte>) { forall i :: 0 <= i < |ds| ==> IsHex(ds[i]) }

  function Lowered(ds: seq<Byte>): (r: seq<Byte>)
    ensures |r| == |ds| && forall i :: 0 <= i < |r| ==> r[i] == Lower(ds[i])
  {
    seq(|ds|, i requires 0 <= i < |ds| => Lower(ds[i]))
  }

  // Without zeros in front, but for a last one.
  function Stripped(ds: seq<Byte>): seq<Byte> {
    if |ds| > 1 && ds[0] == 48 then Stripped(ds[1..]) else ds
  }

  /** Digits spell a number in capital or small letters, with any zeros in front. */
  predicate Spells(ds: seq<Byte>, n: nat) { Stripped(Lowered(ds)) == Hex(n) }

  lemma LowerHex(b: Byte)
    requires IsHex(b)
    ensures IsHex(Lower(b)) && HexDigit(Lower(b)) == HexDigit(b)
    ensures Lower(b) == if HexDigit(b) < 10 then 48 + HexDigit(b) else 97 + HexDigit(b) - 10
  {
    DigitValue(b);
  }

  lemma {:induction false} LoweredValue(ds: seq<Byte>)
    requires AllHex(ds)
    ensures AllHex(Lowered(ds)) && HexValue(Lowered(ds)) == HexValue(ds)
  {
    forall i | 0 <= i < |ds|
      ensures IsHex(Lower(ds[i]))
    {
      LowerHex(ds[i]);
    }
    if ds != [] {
      var n := |ds| - 1;
      LoweredValue(ds[..n]);
      LowerHex(ds[n]);
      assert Lowered(ds)[..n] == Lowered(ds[..n]);
    }
  }

  lemma {:induction false} ZeroInFront(ds: seq<Byte>)
    requires AllHex(ds)
    ensures AllHex([48] + ds) && HexValue([48] + ds) == HexValue(ds)
  {
    var ds' := [48] + ds;
    if ds == [] {
      assert HexValue([48][..0]) == 0;
    } else {
      var n := |ds| - 1;
      assert ds'[..|ds'| - 1] == [48] + ds[..n];
      ZeroInFront(ds[..n]);
    }
  }

  lemma {:induction false} StrippedValue(ds: seq<Byte>)
    requires AllHex(ds)
    ensures AllHex(Stripped(ds)) && HexValue(Stripped(ds)) == HexValue(ds)
    ensures ds != [] ==> Stripped(ds) != [] && (|Stripped(ds)| == 1 || Stripped(ds)[0] != 48)
    ensures forall b :: b in Stripped(ds) ==> b in ds
  {
    if |ds| > 1 && ds[0] == 48 {
      StrippedValue(ds[1..]);
      ZeroInFront(ds[1..]);
      assert ds == [48] + ds[1..];
    }
  }

  // Small digits without zeros in front are what is written for their number.
  lemma {:induction false} WrittenBack(ds: seq<Byte>)
    requires ds != [] && AllHex(ds) && (|ds| == 1 || ds[0] != 48) && forall b :: b in ds ==> Lower(b) == b
    ensures Hex(HexValue(ds)) == ds
    ensures ds[0] != 48 ==> HexValue(ds) > 0
  {
    var n := |ds| - 1;
    LowerHex(ds[n]);
    assert ds[n] in ds;
    if n == 0 {
      assert ds[..0] == [];
    } else {
      WrittenBack(ds[..n]);
      assert ds == ds[..n] + [ds[n]];
    }
  }

  /** However it is spelled, digits stand for the number they spell and for no other. */
  lemma SpellsIff(ds: seq<Byte>, n: nat)
    requires ds != [] && AllHex(ds)
    ensures HexValue(ds) == n <==> Spells(ds, n)
  {
    var low := Lowered(ds);
    LoweredValue(ds);
    StrippedValue(low);
    forall b | b in Stripped(low)
      ensures Lower(b) == b
    {
      var i :| 0 <= i < |low| && low[i] == b;
    }
    WrittenBack(Stripped(low));
    HexRoundTrip(n);
  }
}
