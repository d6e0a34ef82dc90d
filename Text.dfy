/** The JavaScript string operations the CLI relies on: `includes`, `indexOf`,
    `replace` with a string pattern (first occurrence only), `split` on a
    one-character separator, and the decimal rendering of integers. */
module Text {
  import opened Wrappers

  /** `p` occurs in `s` starting at index `k`. */
  predicate OccursAt(s: string, p: string, k: nat) {
    k + |p| <= |s| && s[k..k + |p|] == p
  }

  /** `s.includes(p)`. */
  predicate Contains(s: string, p: string) {
    exists k: nat | k <= |s| :: OccursAt(s, p, k)
  }

  /** An occurrence in `s[1..]` is an occurrence in `s`, one position later. */
  lemma OccursAtTail(s: string, p: string)
    requires |s| > 0
    ensures forall k: nat :: OccursAt(s, p, k + 1) <==> OccursAt(s[1..], p, k)
  {
    forall k: nat
      ensures OccursAt(s, p, k + 1) <==> OccursAt(s[1..], p, k)
    {
      if k + 1 + |p| <= |s| {
        var here, there := s[k + 1..k + 1 + |p|], s[1..][k..k + |p|];
        forall i | 0 <= i < |p| ensures here[i] == there[i] {
        }
        assert here == there;
      }
    }
  }

  /** `s.indexOf(p)`: the first position at which `p` occurs, `None` for -1. */
  function IndexOf(s: string, p: string): (r: Option<nat>)
    ensures r.Some? ==> OccursAt(s, p, r.value)
    ensures r.Some? ==> forall k: nat :: k < r.value ==> !OccursAt(s, p, k)
    ensures r.None? <==> !Contains(s, p)
    decreases |s|
  {
    if |p| <= |s| && s[..|p|] == p then
      assert OccursAt(s, p, 0);
      Some(0)
    else if s == [] then
      None
    else
      OccursAtTail(s, p);
      var r := IndexOf(s[1..], p);
      if r.None? then
        assert forall k: nat :: !OccursAt(s, p, k) by {
          forall k: nat ensures !OccursAt(s, p, k) {
            if k > 0 { assert !OccursAt(s[1..], p, k - 1); }
          }
        }
        None
      else
        assert forall k: nat :: k < r.value + 1 ==> !OccursAt(s, p, k) by {
          forall k: nat | k < r.value + 1 ensures !OccursAt(s, p, k) {
            if k > 0 { assert !OccursAt(s[1..], p, k - 1); }
          }
        }
        Some(r.value + 1)
  }

  /** `s.replace(p, rep)` for a string pattern `p` and a replacement without
      `$` patterns: the first occurrence of `p` is replaced by `rep`. */
  function ReplaceFirst(s: string, p: string, rep: string): (r: string)
    ensures !Contains(s, p) ==> r == s
    ensures forall k: nat :: OccursAt(s, p, k) && (forall j: nat :: j < k ==> !OccursAt(s, p, j)) ==>
              r == s[..k] + rep + s[k + |p|..]
  {
    match IndexOf(s, p)
    case None => s
    case Some(k) => s[..k] + rep + s[k + |p|..]
  }

  /** Replacing at the first occurrence of `p`, found at `k`. */
  lemma ReplaceFirstAt(s: string, p: string, rep: string, k: nat)
    requires OccursAt(s, p, k) && forall j: nat :: j < k ==> !OccursAt(s, p, j)
    ensures ReplaceFirst(s, p, rep) == s[..k] + rep + s[k + |p|..]
    ensures s[k..] == p + s[k + |p|..]
  {
    assert s[k..] == s[k..k + |p|] + s[k + |p|..];
  }

  /** A piece placed between two strings occurs right after the first one. */
  lemma OccursBetween(a: string, p: string, b: string)
    ensures OccursAt(a + p + b, p, |a|)
  {
    assert (a + p + b)[|a|..|a| + |p|] == p;
  }

  /** What occurs in a middle piece occurs in the whole. */
  lemma ContainsWithin(a: string, b: string, c: string, p: string)
    ensures Contains(b, p) ==> Contains(a + b + c, p)
  {
    if Contains(b, p) {
      var k: nat :| k <= |b| && OccursAt(b, p, k);
      var whole := a + b + c;
      assert whole[|a| + k..|a| + k + |p|] == b[k..k + |p|];
      assert OccursAt(whole, p, |a| + k);
    }
  }

  /** Separators joining `pieces`: the inverse of `Split`. */
  function Join(pieces: seq<string>, sep: char): string
    decreases |pieces|
  {
    if |pieces| == 0 then ""
    else if |pieces| == 1 then pieces[0]
    else pieces[0] + [sep] + Join(pieces[1..], sep)
  }

  /** A character glued onto the first piece is glued onto the joined text. */
  lemma JoinGlue(c: char, pieces: seq<string>, sep: char)
    requires |pieces| > 0
    ensures Join([[c] + pieces[0]] + pieces[1..], sep) == [c] + Join(pieces, sep)
  {
    var glued := [[c] + pieces[0]] + pieces[1..];
    if |pieces| > 1 {
      assert glued[1..] == pieces[1..];
      assert Join(glued, sep) == [c] + pieces[0] + [sep] + Join(pieces[1..], sep);
    }
  }

  /** `s.split(sep)` for a one-character separator: the pieces between the
      separators, empty pieces included, and `[""]` for the empty string. */
  function Split(s: string, sep: char): (pieces: seq<string>)
    ensures |pieces| > 0
    ensures forall i :: 0 <= i < |pieces| ==> sep !in pieces[i]
    ensures Join(pieces, sep) == s
    decreases |s|
  {
    if s == [] then [""]
    else
      var rest := Split(s[1..], sep);
      if s[0] == sep then
        assert s == [sep] + s[1..];
        [""] + rest
      else
        var first := [s[0]] + rest[0];
        JoinGlue(s[0], rest, sep);
        assert s == [s[0]] + s[1..];
        [first] + rest[1..]
  }

  /** Splitting a separator-free prefix glued onto `t` glues it onto the first piece of `t`. */
  lemma {:induction false} SplitPrefix(w: string, t: string, sep: char)
    requires sep !in w
    ensures Split(w + t, sep) == [w + Split(t, sep)[0]] + Split(t, sep)[1..]
    decreases |w|
  {
    if w != [] {
      assert (w + t)[1..] == w[1..] + t;
      assert (w + t)[0] == w[0];
      SplitPrefix(w[1..], t, sep);
      assert [w[0]] + (w[1..] + Split(t, sep)[0]) == w + Split(t, sep)[0];
    } else {
      var pieces := Split(t, sep);
      assert w + t == t && w + pieces[0] == pieces[0];
      assert pieces == [pieces[0]] + pieces[1..];
    }
  }

  /** Joining separator-free pieces and splitting again gives back the pieces. */
  lemma {:induction false} SplitJoin(pieces: seq<string>, sep: char)
    requires |pieces| > 0
    requires forall i :: 0 <= i < |pieces| ==> sep !in pieces[i]
    ensures Split(Join(pieces, sep), sep) == pieces
    decreases |pieces|
  {
    if |pieces| == 1 {
      SplitPrefix(pieces[0], "", sep);
      assert pieces[0] + "" == pieces[0];
    } else {
      var t := [sep] + Join(pieces[1..], sep);
      assert Join(pieces, sep) == pieces[0] + t;
      SplitPrefix(pieces[0], t, sep);
      assert t[1..] == Join(pieces[1..], sep);
      SplitJoin(pieces[1..], sep);
      assert Split(t, sep) == [""] + pieces[1..];
      assert pieces[0] + "" == pieces[0];
    }
  }

  predicate IsDigit(c: char) {
    '0' <= c <= '9'
  }

  predicate AllDigits(s: string) {
    forall i :: 0 <= i < |s| ==> IsDigit(s[i])
  }

  function DigitChar(d: nat): (c: char)
    requires d < 10
    ensures IsDigit(c) && (c as int) - ('0' as int) == d
  {
    ('0' as int + d) as char
  }

  /** The decimal digits of `n`, with no leading zero. */
  function NatToDecimal(n: nat): (s: string)
    ensures |s| > 0 && AllDigits(s)
    ensures s[0] == '0' ==> n == 0
    decreases n
  {
    if n < 10 then [DigitChar(n)] else NatToDecimal(n / 10) + [DigitChar(n % 10)]
  }

  /** The number a string of decimal digits denotes. */
  function DecimalValue(s: string): nat
    requires AllDigits(s)
    decreases |s|
  {
    if s == [] then 0
    else DecimalValue(s[..|s| - 1]) * 10 + ((s[|s| - 1] as int) - ('0' as int))
  }

  /** Reading back the digits `NatToDecimal` writes gives the number. */
  lemma {:induction false} DecimalRoundTrip(n: nat)
    ensures DecimalValue(NatToDecimal(n)) == n
    decreases n
  {
    if n >= 10 {
      var s := NatToDecimal(n);
      assert s[..|s| - 1] == NatToDecimal(n / 10);
      DecimalRoundTrip(n / 10);
    }
  }

  /** `String(i)` for an integer-valued JavaScript number. */
  function IntToDecimal(i: int): string {
    if i < 0 then "-" + NatToDecimal(-i) else NatToDecimal(i)
  }

  /** The decimal text of an integer is its magnitude's digits, after a
      minus sign when it is negative. */
  lemma IntToDecimalSign(i: int)
    ensures i < 0 ==> IntToDecimal(i) == "-" + NatToDecimal(-i)
    ensures i >= 0 ==> IntToDecimal(i) == NatToDecimal(i)
  {
  }
}
