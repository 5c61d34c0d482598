/**
 * The few string operations of Python that the catchup code relies on:
 * `pat in s`, the first match of `re.search(r"<pat>(\d*)", s)`, `int(digits)`
 * and `s.split(sep)`. Strings are sequences of characters; digits are ASCII.
 */
module PyText {
  import opened PyErrors

  predicate IsDigit(c: char) {
    '0' <= c <= '9'
  }

  predicate AllDigits(s: string) {
    forall k :: 0 <= k < |s| ==> IsDigit(s[k])
  }

  /** `pat` occurs in `s` starting at index `i`. */
  predicate OccursAt(s: string, pat: string, i: int) {
    0 <= i && i + |pat| <= |s| && s[i..i + |pat|] == pat
  }

  /** The leftmost occurrence of `pat` in `s` at index `i` or later. */
  function FindFrom(s: string, pat: string, i: nat): (r: Option<nat>)
    ensures r.Some? ==> i <= r.value && OccursAt(s, pat, r.value)
    ensures forall j :: i <= j && (r.None? || j < r.value) ==> !OccursAt(s, pat, j)
    decreases |s| - i
  {
    if i + |pat| > |s| then None
    else if s[i..i + |pat|] == pat then Some(i)
    else FindFrom(s, pat, i + 1)
  }

  /** The index where `re.search` finds `pat` first in `s`, if anywhere. */
  function Find(s: string, pat: string): (r: Option<nat>)
    ensures r.Some? ==> OccursAt(s, pat, r.value)
    ensures r.Some? ==> forall j :: j < r.value ==> !OccursAt(s, pat, j)
    ensures r.None? ==> forall j :: !OccursAt(s, pat, j)
  {
    FindFrom(s, pat, 0)
  }

  /** Python's `pat in s`. */
  function Contains(s: string, pat: string): (b: bool)
    ensures b <==> exists j :: OccursAt(s, pat, j)
  {
    Find(s, pat).Some?
  }

  /** What `(\d*)` captures at the start of `s`: the longest run of leading digits. */
  function DigitRun(s: string): (r: string)
    ensures r <= s
    ensures AllDigits(r)
    ensures |r| < |s| ==> !IsDigit(s[|r|])
  {
    if s != [] && IsDigit(s[0]) then [s[0]] + DigitRun(s[1..]) else []
  }

  function DigitValue(c: char): (d: nat)
    requires IsDigit(c)
    ensures d < 10
  {
    c as int - '0' as int
  }

  function DigitChar(d: nat): (c: char)
    requires d < 10
    ensures IsDigit(c) && DigitValue(c) == d
  {
    ('0' as int + d) as char
  }

  /** The number a string of decimal digits denotes, most significant digit first. */
  function DecimalValue(ds: string): nat
    requires AllDigits(ds)
  {
    if ds == [] then 0 else 10 * DecimalValue(ds[..|ds| - 1]) + DigitValue(ds[|ds| - 1])
  }

  /** The decimal numeral of `n` without leading zeros, as `str(n)` writes it. */
  function DecimalText(n: nat): (s: string)
    ensures s != [] && AllDigits(s)
    ensures |s| > 1 ==> s[0] != '0'
  {
    if n < 10 then [DigitChar(n)] else DecimalText(n / 10) + [DigitChar(n % 10)]
  }

  lemma {:induction false} DecimalRoundTrip(n: nat)
    ensures DecimalValue(DecimalText(n)) == n
  {
    if n >= 10 {
      var s := DecimalText(n);
      assert s[..|s| - 1] == DecimalText(n / 10);
      DecimalRoundTrip(n / 10);
    }
  }

  /** Leading zeros do not change the value: `int("007") == 7`. */
  lemma {:induction false} LeadingZeroIgnored(ds: string)
    requires AllDigits(ds)
    ensures AllDigits("0" + ds) && DecimalValue("0" + ds) == DecimalValue(ds)
  {
    var z := "0" + ds;
    if ds != [] {
      assert z[..|z| - 1] == "0" + ds[..|ds| - 1];
      LeadingZeroIgnored(ds[..|ds| - 1]);
    } else {
      assert z[..|z| - 1] == [];
    }
  }

  /**
   * The integer string conversion limit of CPython (3.11 and later, and the
   * security releases 3.7.14, 3.8.14, 3.9.14 and 3.10.7): `int()` refuses a
   * decimal string with more digit characters than this, leading zeros included.
   */
  const MaxStrDigits: nat := 4300

  /**
   * Python's `int(ds)` on a run of ASCII digits: the empty run and a run
   * longer than the conversion limit raise ValueError.
   */
  function ParseDigits(ds: string): (r: Result<nat>)
    requires AllDigits(ds)
    ensures r.Raise? <==> ds == [] || |ds| > MaxStrDigits
    ensures r.Raise? ==> r.error == ValueError
    ensures r.Ok? ==> r.value == DecimalValue(ds)
  {
    if ds == [] || |ds| > MaxStrDigits then Raise(ValueError) else Ok(DecimalValue(ds))
  }

  /** `int(str(n)) == n` for every `n` whose numeral is within the conversion limit. */
  lemma ParseDigitsOfDecimalText(n: nat)
    requires |DecimalText(n)| <= MaxStrDigits
    ensures ParseDigits(DecimalText(n)) == Ok(n)
  {
    DecimalRoundTrip(n);
  }

  /**
   * The limit counts characters, not the value: a run of more than 4300
   * zeros in front of `3` raises although it denotes 3.
   */
  lemma {:induction false} LongRunOfZerosRaises(k: nat)
    requires k >= MaxStrDigits
    ensures AllDigits(Zeros(k) + "3")
    ensures DecimalValue(Zeros(k) + "3") == 3
    ensures ParseDigits(Zeros(k) + "3") == Raise(ValueError)
  {
    ZerosValue(k, "3");
  }

  /** `k` zero characters. */
  function Zeros(k: nat): (z: string)
    ensures |z| == k && AllDigits(z)
  {
    if k == 0 then [] else "0" + Zeros(k - 1)
  }

  lemma {:induction false} ZerosValue(k: nat, ds: string)
    requires AllDigits(ds)
    ensures AllDigits(Zeros(k) + ds) && DecimalValue(Zeros(k) + ds) == DecimalValue(ds)
  {
    if k > 0 {
      ZerosValue(k - 1, ds);
      assert Zeros(k) + ds == "0" + (Zeros(k - 1) + ds);
      LeadingZeroIgnored(Zeros(k - 1) + ds);
    } else {
      assert Zeros(k) + ds == ds;
    }
  }

  /** Number of occurrences of `c` in `s`. */
  function Count(s: string, c: char): nat {
    if s == [] then 0 else (if s[0] == c then 1 else 0) + Count(s[1..], c)
  }

  /** Python's `s.split(sep)` with an explicit one-character separator. */
  function Split(s: string, sep: char): (r: seq<string>)
    ensures |r| == Count(s, sep) + 1
    ensures forall k :: 0 <= k < |r| ==> sep !in r[k]
  {
    if s == [] then [[]]
    else
      var rest := Split(s[1..], sep);
      if s[0] == sep then [[]] + rest
      else [[s[0]] + rest[0]] + rest[1..]
  }

  /** Python's `sep.join(pieces)`. */
  function Join(pieces: seq<string>, sep: char): string
    requires |pieces| >= 1
  {
    if |pieces| == 1 then pieces[0] else pieces[0] + [sep] + Join(pieces[1..], sep)
  }

  /** Splitting loses nothing: joining the pieces gives the string back. */
  lemma {:induction false} JoinSplit(s: string, sep: char)
    ensures Join(Split(s, sep), sep) == s
  {
    if s != [] {
      var rest := Split(s[1..], sep);
      JoinSplit(s[1..], sep);
      if s[0] == sep {
        assert Split(s, sep)[1..] == rest;
      } else if |rest| > 1 {
        var r := Split(s, sep);
        assert r[1..] == rest[1..];
        calc {
          Join(r, sep);
          r[0] + [sep] + Join(r[1..], sep);
          [s[0]] + (rest[0] + [sep] + Join(rest[1..], sep));
          [s[0]] + Join(rest, sep);
          [s[0]] + s[1..];
        }
      }
    }
  }

  /** Joining pieces that hold no separator and splitting again gives the pieces back. */
  lemma {:induction false} SplitJoin(pieces: seq<string>, sep: char)
    requires |pieces| >= 1
    requires forall k :: 0 <= k < |pieces| ==> sep !in pieces[k]
    ensures Split(Join(pieces, sep), sep) == pieces
    decreases |pieces|, |pieces[0]|
  {
    var s := Join(pieces, sep);
    if pieces[0] == [] {
      if |pieces| > 1 {
        assert s == [sep] + Join(pieces[1..], sep);
        assert s[1..] == Join(pieces[1..], sep);
        SplitJoin(pieces[1..], sep);
      }
    } else {
      var c := pieces[0][0];
      var shorter := [pieces[0][1..]] + pieces[1..];
      assert shorter[1..] == pieces[1..];
      assert s == [c] + Join(shorter, sep) by {
        if |pieces| > 1 {
          assert pieces[0] == [c] + pieces[0][1..];
        }
      }
      assert s[1..] == Join(shorter, sep);
      assert sep !in shorter[0] by {
        assert forall x :: x in shorter[0] ==> x in pieces[0];
      }
      SplitJoin(shorter, sep);
      assert [c] + shorter[0] == pieces[0];
      assert pieces == [pieces[0]] + pieces[1..];
    }
  }

  /** Python's `xs[k:][0]`: the element at `k`, or IndexError when the slice is empty. */
  function ItemAt<T>(xs: seq<T>, k: nat): (r: Result<T>)
    ensures r.Ok? <==> k < |xs|
    ensures r.Ok? ==> r.value == xs[k]
    ensures r.Raise? ==> r.error == IndexError
  {
    if k < |xs| then Ok(xs[k]) else Raise(IndexError)
  }
}
