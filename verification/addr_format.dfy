/**
  The frame-address formatter pair of the code generator: a length predictor and a
  formatter that writes `-<offset>(<reg>)` into a buffer the caller sized with it.
 */
module AddrFormat {
  import opened Options
  import opened CStrings
  import opened Decimal

  /** The address text written for a positive deviation: `-`, its decimal digits, `(`, the register, `)`. */
  function AddrText(reg: CStr, deviation: nat): (t: CStr)
    requires deviation > 0
  {
    var digits := DecimalText(deviation);
    var t := ['-'] + digits + ['('] + reg + [')'];
    assert forall i :: 0 <= i < |t| ==> t[i] != '\0' by {
      forall i | 0 <= i < |t|
        ensures t[i] != '\0'
      {
        if 1 + |digits| + 1 <= i < 1 + |digits| + 1 + |reg| {
          assert t[i] == reg[i - |digits| - 2];
          assert reg[i - |digits| - 2] in reg;
        }
      }
    }
    t
  }

  /** The formatted address is a minus sign, the deviation's digits, and the parenthesised register. */
  lemma AddrTextLength(reg: CStr, deviation: nat)
    requires deviation > 0
    ensures |AddrText(reg, deviation)| == NumDigits(deviation) + |reg| + 3
    ensures AddrText(reg, deviation)[0] == '-'
  {
  }

  /**
    count_len_addr_reg_shift: the length the caller allocates for the formatter's
    output — the register's length for a zero deviation, -1 for a negative one, and
    otherwise the register's length plus the deviation's digit count plus four.
   */
  method CountLenAddrRegShift(reg: CStr, deviation: Int32) returns (len: int)
    ensures deviation == 0 ==> len == |reg|
    ensures deviation < 0 ==> len == -1
    ensures deviation > 0 ==> len == |reg| + NumDigits(deviation as nat) + 4
    ensures deviation > 0 ==> len == |AddrText(reg, deviation as nat)| + 1
  {
    if deviation == 0 {
      return |reg|;
    } else if deviation < 0 {
      return -1;
    }
    var digit := CountDigits(deviation);
    AddrTextLength(reg, deviation as nat);
    return |reg| + digit + 4;
  }

  /** The digit-counting loop both routines share: divide by ten until nothing is left. */
  method CountDigits(deviation: Int32) returns (digit: nat)
    requires deviation > 0
    ensures digit == NumDigits(deviation as nat)
  {
    var tmp := deviation;
    digit := 0;
    while tmp != 0
      invariant 0 <= tmp
      invariant digit + NumDigits(tmp as nat) == NumDigits(deviation as nat)
      decreases tmp
    {
      digit := digit + 1;
      tmp := tmp / 10;
    }
  }

  /** Writing the next cell after a prefix extends the prefix the buffer agrees with. */
  lemma AgreesExtend(out: Buffer, base: Buffer, pre: seq<char>, at: nat, c: char)
    requires at == |pre| && Agrees(out, base, pre)
    ensures Agrees(out[at := c], base, pre + [c])
  {
  }

  /** The formatted address spelled out piece by piece, with its terminator. */
  lemma AddrTextSpelled(reg: CStr, deviation: nat)
    requires deviation > 0
    ensures ['-'] + DecimalText(deviation) + ['('] + reg + [')'] + ['\0'] == AddrText(reg, deviation) + ['\0']
  {
  }

  /** A character-by-character copy of `s` into the cells right after `pre`. */
  method WriteRun(out: Buffer, at: nat, s: seq<char>, ghost base: Buffer, ghost pre: seq<char>) returns (r: Buffer)
    requires at == |pre| && Agrees(out, base, pre)
    ensures Agrees(r, base, pre + s)
  {
    r := out;
    var i := 0;
    while i < |s|
      invariant 0 <= i <= |s|
      invariant Agrees(r, base, pre + s[..i])
    {
      AgreesExtend(r, base, pre + s[..i], at + i, s[i]);
      assert pre + s[..i] + [s[i]] == pre + s[..i + 1];
      r := r[at + i := s[i]];
      i := i + 1;
    }
    assert s[..i] == s;
  }

  /**
    addr_reg_shift: copies the register with its terminator for a zero deviation,
    writes nothing for a negative one, and otherwise writes the address text and
    its terminator from cell 0 on.
   */
  method AddrRegShift(res: Buffer, reg: CStr, deviation: Int32) returns (out: Buffer)
    ensures deviation == 0 ==> out == StrCpy(res, reg)
    ensures deviation < 0 ==> out == res
    ensures deviation > 0 ==> out == Place(res, 0, AddrText(reg, deviation as nat) + ['\0'])
  {
    if deviation == 0 {
      out := StrCpy(res, reg);
      return;
    } else if deviation < 0 {
      out := res;
      return;
    }
    out := WriteAddr(res, reg, deviation);
  }

  /** The positive-deviation path of addr_reg_shift: sign, digits, register in parentheses, terminator. */
  method WriteAddr(res: Buffer, reg: CStr, deviation: Int32) returns (out: Buffer)
    requires deviation > 0
    ensures out == Place(res, 0, AddrText(reg, deviation as nat) + ['\0'])
  {
    AgreesExtend(res, res, [], 0, '-');
    out := res[0 := '-'];
    var digit := CountDigits(deviation);
    // the digits that %d writes for the deviation
    var digits := DecimalText(deviation as nat);
    out := WriteRun(out, 1, digits, res, ['-']);
    ghost var copied := out;
    out := out[digit + 1 := '\0'];
    AgreesExtend(copied, res, ['-'] + digits, digit + 1, '(');
    assert out[digit + 1 := '('] == copied[digit + 1 := '('];
    out := out[digit + 1 := '('];
    out := WriteRun(out, digit + 2, reg, res, ['-'] + digits + ['(']);
    AgreesExtend(out, res, ['-'] + digits + ['('] + reg, digit + |reg| + 2, ')');
    out := out[digit + |reg| + 2 := ')'];
    AgreesExtend(out, res, ['-'] + digits + ['('] + reg + [')'], digit + |reg| + 3, '\0');
    out := out[digit + |reg| + 3 := '\0'];
    AgreesIsPlace(out, res, ['-'] + digits + ['('] + reg + [')'] + ['\0']);
    AddrTextSpelled(reg, deviation as nat);
  }

  /**
    For a positive deviation the predicted length is exactly the number of bytes
    the formatter writes into a fresh buffer, and the buffer reads back as the text.
   */
  lemma PositiveShiftFits(reg: CStr, deviation: nat)
    requires deviation > 0
    ensures FitsIn(Place(map[], 0, AddrText(reg, deviation) + ['\0']), |reg| + NumDigits(deviation) + 4)
    ensures !FitsIn(Place(map[], 0, AddrText(reg, deviation) + ['\0']), |reg| + NumDigits(deviation) + 3)
    ensures ReadCStr(Place(map[], 0, AddrText(reg, deviation) + ['\0']), 0) == Some(AddrText(reg, deviation))
  {
    var s := AddrText(reg, deviation) + ['\0'];
    AddrTextLength(reg, deviation);
    PlaceFits(s, |reg| + NumDigits(deviation) + 4);
    PlaceFits(s, |reg| + NumDigits(deviation) + 3);
    ReadPlaced(map[], 0, AddrText(reg, deviation));
  }

  /**
    For a zero deviation the counter predicts `|reg|` bytes but the formatter's strcpy
    writes `|reg| + 1`: the terminator lands one cell past a buffer of the predicted size.
   */
  lemma ZeroShiftOverflows(reg: CStr)
    ensures |reg| in StrCpy(map[], reg)
    ensures !FitsIn(StrCpy(map[], reg), |reg|)
    ensures FitsIn(StrCpy(map[], reg), |reg| + 1)
  {
    PlaceFits(reg + ['\0'], |reg|);
    PlaceFits(reg + ['\0'], |reg| + 1);
  }

  /**
    The length predictor with the zero case corrected to count the terminator:
    every non-negative deviation's output fits, with no byte to spare.
   */
  function CountLenFixed(reg: CStr, deviation: Int32): (len: int)
    ensures deviation < 0 ==> len == -1
    ensures deviation == 0 ==> FitsIn(StrCpy(map[], reg), len) && !FitsIn(StrCpy(map[], reg), len - 1)
    ensures deviation > 0 ==> len == |reg| + NumDigits(deviation as nat) + 4
    ensures deviation > 0 ==>
      && FitsIn(Place(map[], 0, AddrText(reg, deviation as nat) + ['\0']), len)
      && !FitsIn(Place(map[], 0, AddrText(reg, deviation as nat) + ['\0']), len - 1)
  {
    if deviation == 0 then
      PlaceFits(reg + ['\0'], |reg| + 1);
      PlaceFits(reg + ['\0'], |reg|);
      |reg| + 1
    else if deviation < 0 then -1
    else
      PositiveShiftFits(reg, deviation as nat);
      |reg| + NumDigits(deviation as nat) + 4
  }

  /** The first index at or after `i` whose character is not a decimal digit, or |t|. */
  function DigitsEnd(t: seq<char>, i: nat): (j: nat)
    requires i <= |t|
    ensures i <= j <= |t|
    ensures forall k :: i <= k < j ==> IsDigit(t[k])
    ensures j < |t| ==> !IsDigit(t[j])
    decreases |t| - i
  {
    if i == |t| || !IsDigit(t[i]) then i else DigitsEnd(t, i + 1)
  }

  /**
    Reads a frame address back: a `-`, a run of digits naming a positive deviation,
    `(`, the register, and a closing `)`.
   */
  function ParseAddr(t: seq<char>): Option<(CStr, nat)>
  {
    if |t| < 2 || t[0] != '-' || t[|t| - 1] != ')' then None
    else
      var j := DigitsEnd(t, 1);
      if j == 1 || j >= |t| - 1 || t[j] != '(' then None
      else
        var deviation := ParseDecimal(t[1..j]);
        var reg := t[j + 1..|t| - 1];
        if deviation == 0 || '\0' in reg then None else Some((reg, deviation))
  }

  /** Parsing an address the formatter wrote recovers its register and deviation. */
  lemma ParseAddrText(reg: CStr, deviation: nat)
    requires deviation > 0
    ensures ParseAddr(AddrText(reg, deviation)) == Some((reg, deviation))
  {
    var t := AddrText(reg, deviation);
    var digits := DecimalText(deviation);
    var e := 1 + |digits|;
    assert t[e] == '(';
    assert !IsDigit(t[e]);
    assert forall k :: 1 <= k < e ==> t[k] == digits[k - 1];
    DigitsEndAt(t, 1, e);
    assert t[1..e] == digits;
    ParseDecimalText(deviation);
    assert t[e + 1..|t| - 1] == reg;
  }

  /** DigitsEnd finds the end of a digit run that stops at a non-digit. */
  lemma {:induction false} DigitsEndAt(t: seq<char>, i: nat, e: nat)
    requires i <= e < |t|
    requires forall k :: i <= k < e ==> IsDigit(t[k])
    requires !IsDigit(t[e])
    ensures DigitsEnd(t, i) == e
    decreases e - i
  {
    if i < e {
      DigitsEndAt(t, i + 1, e);
    }
  }

  /** Distinct (register, deviation) pairs are formatted as distinct addresses. */
  lemma AddrTextInjective(reg1: CStr, d1: nat, reg2: CStr, d2: nat)
    requires d1 > 0 && d2 > 0
    requires AddrText(reg1, d1) == AddrText(reg2, d2)
    ensures reg1 == reg2 && d1 == d2
  {
    ParseAddrText(reg1, d1);
    ParseAddrText(reg2, d2);
  }
}
