/** The handful of Python built-ins on strings and lists that the modelled
    code leans on: `str.split()`, `" ".join(...)`, `str * n`, `str(int)`,
    `int(str)` and the negative-start slice `xs[-m:]`. */
module PyText {
  import opened PyBase

  /** The characters `str.split()` without arguments treats as separators:
      those for which `str.isspace()` holds, namely U+0009 to U+000D,
      U+001C to U+0020, U+0085, U+00A0, U+1680, U+2000 to U+200A, U+2028,
      U+2029, U+202F, U+205F and U+3000. */
  predicate IsSpace(c: char) {
    var n := c as int;
    (0x09 <= n <= 0x0D) || (0x1C <= n <= 0x20) || n == 0x85 || n == 0xA0 || n == 0x1680 ||
    (0x2000 <= n <= 0x200A) || n == 0x2028 || n == 0x2029 || n == 0x202F || n == 0x205F || n == 0x3000
  }

  /** A non-empty string without whitespace: what `str.split()` yields. */
  predicate IsWord(w: string) {
    |w| > 0 && forall i :: 0 <= i < |w| ==> !IsSpace(w[i])
  }

  /** Length of the run of non-space characters at the start of `s`. */
  function WordLen(s: string): (r: nat)
    ensures r <= |s|
    ensures r == |s| || IsSpace(s[r])
  {
    if s == [] || IsSpace(s[0]) then 0 else 1 + WordLen(s[1..])
  }

  /** Python's `s.split()`: the maximal runs of non-space characters, in order. */
  function Split(s: string): seq<string>
    decreases |s|
  {
    if s == [] then []
    else if IsSpace(s[0]) then Split(s[1..])
    else
      var k := WordLen(s);
      [s[..k]] + Split(s[k..])
  }

  /** The run `WordLen` measures holds no space. */
  lemma {:induction false} WordLenNoSpace(s: string)
    ensures forall i :: 0 <= i < WordLen(s) ==> !IsSpace(s[i])
    decreases |s|
  {
    if s != [] && !IsSpace(s[0]) {
      WordLenNoSpace(s[1..]);
      assert forall i :: 1 <= i < WordLen(s) ==> s[i] == s[1..][i - 1];
    }
  }

  /** Every piece `split()` returns is a word. */
  lemma {:induction false} SplitGivesWords(s: string)
    ensures forall i :: 0 <= i < |Split(s)| ==> IsWord(Split(s)[i])
    decreases |s|
  {
    if s != [] {
      if IsSpace(s[0]) {
        SplitGivesWords(s[1..]);
      } else {
        var k := WordLen(s);
        SplitGivesWords(s[k..]);
        WordLenNoSpace(s);
        assert IsWord(s[..k]) by {
          assert forall i :: 0 <= i < k ==> s[..k][i] == s[i];
        }
        assert Split(s) == [s[..k]] + Split(s[k..]);
      }
    }
  }

  /** Python's `" ".join(ts)`. */
  function Join(ts: seq<string>): string {
    if |ts| == 0 then ""
    else if |ts| == 1 then ts[0]
    else ts[0] + " " + Join(ts[1..])
  }

  /** Python's `s * n` on a string. */
  function RepeatStr(s: string, n: nat): string {
    if n == 0 then "" else s + RepeatStr(s, n - 1)
  }

  /** Python's `[x] * n` on a list. */
  function Repeat<T>(x: T, n: nat): (r: seq<T>)
    ensures |r| == n && forall i :: 0 <= i < n ==> r[i] == x
  {
    seq(n, _ => x)
  }

  lemma {:induction false} WordLenBeforeSpace(a: string, c: string)
    requires |c| > 0 && IsSpace(c[0])
    ensures WordLen(a + c) == WordLen(a)
    decreases |a|
  {
    if a == [] {
      assert a + c == c;
    } else if !IsSpace(a[0]) {
      assert (a + c)[1..] == a[1..] + c;
      WordLenBeforeSpace(a[1..], c);
    }
  }

  /** Splitting at a separator splits each side independently. */
  lemma {:induction false} SplitAtSpace(a: string, b: string)
    ensures Split(a + " " + b) == Split(a) + Split(b)
    decreases |a|
  {
    var s := a + " " + b;
    if a == [] {
      assert s == " " + b;
      assert s[1..] == b;
    } else if IsSpace(a[0]) {
      assert s[1..] == a[1..] + " " + b;
      SplitAtSpace(a[1..], b);
    } else {
      var k := WordLen(a);
      SplitAtSpace(a[k..], b);
      SplitAtSpaceWord(a, b);
    }
  }

  /** The step of `SplitAtSpace` when `a` starts with a word: the word is
      cut off before the separator. */
  lemma SplitAtSpaceWord(a: string, b: string)
    requires a != [] && !IsSpace(a[0])
    requires Split(a[WordLen(a)..] + " " + b) == Split(a[WordLen(a)..]) + Split(b)
    ensures Split(a + " " + b) == Split(a) + Split(b)
  {
    WordThenSpace(a, b);
    assert Split(a) == [a[..WordLen(a)]] + Split(a[WordLen(a)..]);
  }

  /** A word followed by a space ends at that space. */
  lemma WordThenSpace(a: string, b: string)
    requires a != [] && !IsSpace(a[0])
    ensures Split(a + " " + b) == [a[..WordLen(a)]] + Split(a[WordLen(a)..] + " " + b)
  {
    var s := a + " " + b;
    var k := WordLen(a);
    assert WordLen(s) == k by {
      assert s == a + (" " + b);
      WordLenBeforeSpace(a, " " + b);
    }
    assert s[0] == a[0];
    assert s[..k] == a[..k];
    assert s[k..] == a[k..] + " " + b;
  }

  /** Text that is empty or ends with a space splits apart from what
      follows it. */
  lemma SplitAfterSpace(prefix: string, t: string)
    requires prefix == "" || prefix[|prefix| - 1] == ' '
    ensures Split(prefix + t) == Split(prefix) + Split(t)
  {
    if prefix == "" {
      assert prefix + t == t;
    } else {
      var p := prefix[..|prefix| - 1];
      assert Split(prefix) == Split(p) by {
        assert prefix == p + " " + "";
        SplitAtSpace(p, "");
      }
      assert Split(prefix + t) == Split(p) + Split(t) by {
        assert prefix + t == p + " " + t;
        SplitAtSpace(p, t);
      }
    }
  }

  lemma SplitWord(w: string)
    requires IsWord(w)
    ensures Split(w) == [w]
  {
    assert WordLen(w) == |w|;
    assert w[..|w|] == w;
    assert w[|w|..] == [];
  }

  /** A trailing separator does not change the split. */
  lemma SplitTrailingSpace(a: string)
    ensures Split(a + " ") == Split(a)
  {
    SplitAtSpace(a, "");
    assert a + " " + "" == a + " ";
  }

  /** `" ".join` is undone by `split()` when every token is a word. */
  lemma {:induction false} SplitJoin(ts: seq<string>)
    requires forall i :: 0 <= i < |ts| ==> IsWord(ts[i])
    ensures Split(Join(ts)) == ts
  {
    if |ts| == 1 {
      SplitWord(ts[0]);
    } else if |ts| > 1 {
      SplitAtSpace(ts[0], Join(ts[1..]));
      SplitWord(ts[0]);
      SplitJoin(ts[1..]);
      assert ts == [ts[0]] + ts[1..];
    }
  }

  /** `("/ " * n).split()` is `["/"] * n`. */
  lemma {:induction false} SplitRepeatedDelimiter(n: nat)
    ensures Split(RepeatStr("/ ", n)) == Repeat("/", n)
  {
    if n > 0 {
      var rest := RepeatStr("/ ", n - 1);
      assert RepeatStr("/ ", n) == "/" + " " + rest;
      SplitAtSpace("/", rest);
      SplitWord("/");
      SplitRepeatedDelimiter(n - 1);
      assert Repeat("/", n) == ["/"] + Repeat("/", n - 1);
    }
  }

  predicate IsDigit(c: char) {
    '0' <= c <= '9'
  }

  predicate AllDigits(s: string) {
    forall i :: 0 <= i < |s| ==> IsDigit(s[i])
  }

  function DigitChar(d: nat): (c: char)
    requires d < 10
    ensures IsDigit(c)
  {
    ('0' as int + d) as char
  }

  /** Decimal digits of `n` without leading zeros. */
  function NatToString(n: nat): (r: string)
    ensures |r| > 0 && AllDigits(r)
  {
    if n < 10 then [DigitChar(n)] else NatToString(n / 10) + [DigitChar(n % 10)]
  }

  /** Python's `str(i)` on an int. */
  function IntToString(i: int): (r: string)
    ensures |r| > 0
    ensures forall k :: 0 <= k < |r| ==> IsDigit(r[k]) || r[k] == '-'
  {
    if i < 0 then "-" + NatToString(-i) else NatToString(i)
  }

  /** The value of a string of decimal digits. */
  function DigitsValue(s: string): nat
    requires AllDigits(s)
  {
    if s == [] then 0 else DigitsValue(s[..|s| - 1]) * 10 + (s[|s| - 1] as int - '0' as int)
  }

  /** Python's `int(s)` on a string without whitespace, `+` or `_`:
      an optional minus sign and at least one decimal digit. */
  function ParseInt(s: string): Option<int> {
    if |s| > 1 && s[0] == '-' && AllDigits(s[1..]) then Some(0 - DigitsValue(s[1..]) as int)
    else if |s| > 0 && AllDigits(s) then Some(DigitsValue(s))
    else None
  }

  lemma {:induction false} DigitsValueOfNat(n: nat)
    ensures DigitsValue(NatToString(n)) == n
  {
    var s := NatToString(n);
    if n < 10 {
      assert s[..0] == [];
    } else {
      assert s[..|s| - 1] == NatToString(n / 10);
      DigitsValueOfNat(n / 10);
    }
  }

  /** `int(str(i)) == i`. */
  lemma ParseIntToString(i: int)
    ensures ParseInt(IntToString(i)) == Some(i)
  {
    var s := IntToString(i);
    if i < 0 {
      assert s[1..] == NatToString(-i);
      DigitsValueOfNat(-i);
    } else {
      DigitsValueOfNat(i);
    }
  }

  /** Python's `s[-m:]`. For a positive `m` it keeps the last `m` elements
      (all of `s` when it is shorter); `m == 0` keeps everything, since
      `-0 == 0`; a negative `m` drops the first `-m` elements. */
  function TailSlice<T>(s: seq<T>, m: int): (r: seq<T>)
    ensures m > 0 ==> |r| == (if m < |s| then m else |s|) && r == s[|s| - |r|..]
    ensures m == 0 ==> r == s
    ensures m < 0 ==> r == s[(if -m < |s| then -m else |s|)..]
  {
    var start := -m;
    var from := if start < 0 then (if start + |s| < 0 then 0 else start + |s|)
                else (if start > |s| then |s| else start);
    s[from..]
  }

  /** A non-empty sequence is its front followed by its last element. */
  lemma FrontAndLast<T>(s: seq<T>)
    requires s != []
    ensures s[..|s| - 1] + [s[|s| - 1]] == s
  {
  }
}
