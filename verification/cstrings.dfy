/**
  C strings and byte buffers, as the generator's hand-written formatters see them.

  A C string is modelled by its contents, the characters before the terminating
  NUL; a buffer is modelled by the cells written so far, so that a write past the
  end of a caller-sized buffer is visible as an index outside its bounds.
 */
module CStrings {
  import opened Options

  /** The contents of a C string: no NUL before the terminator. */
  type CStr = s: seq<char> | '\0' !in s

  /** A byte buffer: the cells written so far, by index. */
  type Buffer = map<int, char>

  /** `buf` after writing `s` at positions `at`, `at + 1`, ... in that order. */
  function Place(buf: Buffer, at: int, s: seq<char>): (r: Buffer)
    ensures forall i :: at <= i < at + |s| ==> i in r && r[i] == s[i - at]
    ensures forall i :: (i < at || at + |s| <= i) ==> (i in r <==> i in buf)
    ensures forall i :: (i < at || at + |s| <= i) && i in buf ==> r[i] == buf[i]
    decreases |s|
  {
    if |s| == 0 then buf else Place(buf[at := s[0]], at + 1, s[1..])
  }

  /**
    strcpy(dst, src): the contents of `src` followed by its terminator, written
    from cell 0. Exactly the cells 0 to strlen(src) are written, other cells
    keep their contents, and the result reads back as `src`.
   */
  function StrCpy(dst: Buffer, src: CStr): (r: Buffer)
    ensures ReadCStr(r, 0) == Some(src)
    ensures forall i :: 0 <= i <= |src| ==> i in r
    ensures forall i :: i in r ==> 0 <= i <= |src| || i in dst
    ensures forall i :: i in dst && !(0 <= i <= |src|) ==> i in r && r[i] == dst[i]
  {
    ReadPlaced(dst, 0, src);
    Place(dst, 0, src + ['\0'])
  }

  /** Every cell written lies inside a buffer of `size` bytes. */
  predicate FitsIn(buf: Buffer, size: int)
  {
    forall i :: i in buf ==> 0 <= i < size
  }

  /**
    The C string that starts at cell `at`: the characters up to the first NUL,
    or None when an unwritten cell comes first.
   */
  function ReadCStr(buf: Buffer, at: int): (r: Option<CStr>)
    decreases set i | i in buf && at <= i
  {
    if at !in buf then None
    else if buf[at] == '\0' then Some([])
    else
      SuffixShrinks(buf, at);
      match ReadCStr(buf, at + 1)
      case None => None
      case Some(rest) => Some([buf[at]] + rest)
  }

  /** The written cells from `at + 1` on are strictly fewer than those from a written `at` on. */
  lemma SuffixShrinks(buf: Buffer, at: int)
    requires at in buf
    ensures (set i | i in buf && at + 1 <= i) < (set i | i in buf && at <= i)
  {
    var big := set i | i in buf && at <= i;
    var small := set i | i in buf && at + 1 <= i;
    assert at in big && at !in small;
  }

  /** Writing a C string and its terminator and reading it back gives the same contents. */
  lemma {:induction false} ReadPlaced(buf: Buffer, at: int, s: CStr)
    ensures ReadCStr(Place(buf, at, s + ['\0']), at) == Some(s)
    decreases |s|
  {
    var b := Place(buf, at, s + ['\0']);
    if |s| == 0 {
      assert b[at] == '\0';
    } else {
      assert b[at] == s[0];
      assert s[0] != '\0' by { assert s[0] in s; }
      var b' := Place(buf, at + 1, s[1..] + ['\0']);
      assert s[1..] + ['\0'] == (s + ['\0'])[1..];
      assert forall i :: at + 1 <= i ==> (i in b <==> i in b') && (i in b ==> b[i] == b'[i]);
      ReadFromAgrees(b, b', at + 1);
      ReadPlaced(buf, at + 1, s[1..]);
      assert [s[0]] + s[1..] == s;
    }
  }

  /** Reading from `at` looks only at cells from `at` on. */
  lemma {:induction false} ReadFromAgrees(b: Buffer, b': Buffer, at: int)
    requires forall i :: at <= i ==> (i in b <==> i in b') && (i in b ==> b[i] == b'[i])
    ensures ReadCStr(b, at) == ReadCStr(b', at)
    decreases set i | i in b && at <= i
  {
    if at in b && b[at] != '\0' {
      SuffixShrinks(b, at);
      ReadFromAgrees(b, b', at + 1);
    }
  }

  /**
    strcmp: negative, zero or positive as `a` orders before, equal to, or after `b`,
    comparing characters as unsigned values up to the first difference or terminator.
   */
  function StrCmp(a: CStr, b: CStr): (r: int)
    ensures -1 <= r <= 1
    ensures |a| == 0 && |b| > 0 ==> r == -1
    ensures |a| > 0 && |b| == 0 ==> r == 1
    decreases |a|
  {
    if |a| == 0 && |b| == 0 then 0
    else if |a| == 0 then -1
    else if |b| == 0 then 1
    else if a[0] < b[0] then -1
    else if a[0] > b[0] then 1
    else StrCmp(a[1..], b[1..])
  }

  /** strcmp reports zero exactly for equal strings. */
  lemma {:induction false} StrCmpZeroIff(a: CStr, b: CStr)
    ensures StrCmp(a, b) == 0 <==> a == b
    decreases |a|
  {
    if |a| > 0 && |b| > 0 && a[0] == b[0] {
      StrCmpZeroIff(a[1..], b[1..]);
      if a[1..] == b[1..] {
        assert a == [a[0]] + a[1..] && b == [b[0]] + b[1..];
      }
    }
  }

  /** Swapping the operands of strcmp flips the sign of its answer. */
  lemma {:induction false} StrCmpAntisymmetric(a: CStr, b: CStr)
    ensures StrCmp(a, b) == -StrCmp(b, a)
    decreases |a|
  {
    if |a| > 0 && |b| > 0 && a[0] == b[0] {
      StrCmpAntisymmetric(a[1..], b[1..]);
    }
  }

  /** A fresh buffer written with `s` from cell 0 fits in `size` bytes exactly when `s` does. */
  lemma PlaceFits(s: seq<char>, size: nat)
    ensures FitsIn(Place(map[], 0, s), size) <==> |s| <= size
  {
    var p := Place(map[], 0, s);
    if |s| > size && |s| > 0 {
      assert |s| - 1 in p;
    }

  }

  /** The cells of `out` hold `s` from cell 0 on and those of `base` everywhere else. */
  ghost predicate Agrees(out: Buffer, base: Buffer, s: seq<char>)
  {
    && (forall i :: 0 <= i < |s| ==> i in out && out[i] == s[i])
    && (forall i :: (i < 0 || |s| <= i) ==> (i in out <==> i in base))
    && (forall i :: (i < 0 || |s| <= i) && i in out && i in base ==> out[i] == base[i])
  }

  /** A buffer that agrees with `s` over `base` is `base` with `s` placed at cell 0. */
  lemma AgreesIsPlace(out: Buffer, base: Buffer, s: seq<char>)
    requires Agrees(out, base, s)
    ensures out == Place(base, 0, s)
  {
    var p := Place(base, 0, s);
    assert out.Keys == p.Keys;
    assert forall k | k in out :: out[k] == p[k];
  }
}
