/** Python's str operations that the report code uses: find, rfind, split, rsplit and join,
    and the decimal reading and writing of whole numbers. */
module Text {
  import opened Base

  /** `pat` occurs in `s` starting at position `i`. */
  predicate OccursAt(s: string, pat: string, i: nat)
  {
    i + |pat| <= |s| && s[i..i + |pat|] == pat
  }

  /** `pat` occurs nowhere in `s`. */
  ghost predicate NoOccurrence(s: string, pat: string)
  {
    forall i: nat :: !OccursAt(s, pat, i)
  }

  /** An occurrence inside a slice is an occurrence in the whole string. */
  lemma OccursInSlice(s: string, pat: string, a: nat, b: nat, i: nat)
    requires a <= b <= |s| && OccursAt(s[a..b], pat, i)
    ensures OccursAt(s, pat, a + i)
  {
    var t := s[a..b];
    assert forall m :: i <= m < i + |pat| ==> t[m] == s[a + m];
    assert t[i..i + |pat|] == s[a + i..a + i + |pat|];
  }

  /** The first position at or after `from` where `pat` occurs: `s.find(pat, from)`. */
  function FindFrom(s: string, pat: string, from: nat): (r: Option<nat>)
    ensures r.Some? ==> from <= r.value && OccursAt(s, pat, r.value)
    ensures r.Some? ==> forall j: nat :: from <= j < r.value ==> !OccursAt(s, pat, j)
    ensures r.None? ==> forall j: nat :: from <= j ==> !OccursAt(s, pat, j)
  {
    ScanFinds(s, pat, from);
    Scan(s, pat, from)
  }

  /** The scan behind FindFrom: each position from `from` on, in turn. */
  function Scan(s: string, pat: string, from: nat): Option<nat>
    decreases |s| + 1 - from
  {
    if from + |pat| > |s| then None
    else if OccursAt(s, pat, from) then Some(from)
    else Scan(s, pat, from + 1)
  }

  lemma {:induction false} ScanFinds(s: string, pat: string, from: nat)
    ensures var r := Scan(s, pat, from);
      (r.Some? ==> from <= r.value && OccursAt(s, pat, r.value)) &&
      (r.Some? ==> forall j: nat :: from <= j < r.value ==> !OccursAt(s, pat, j)) &&
      (r.None? ==> forall j: nat :: from <= j ==> !OccursAt(s, pat, j))
    decreases |s| + 1 - from
  {
    if from + |pat| <= |s| && !OccursAt(s, pat, from) {
      ScanFinds(s, pat, from + 1);
    }
  }

  /** The last position where `pat` occurs wholly inside `s[..n]`: `s[:n].rfind(pat)`. */
  function FindLast(s: string, pat: string, n: nat): (r: Option<nat>)
    requires n <= |s|
    ensures r.Some? ==> r.value + |pat| <= n && OccursAt(s, pat, r.value)
    ensures r.Some? ==> forall j: nat :: r.value < j && j + |pat| <= n ==> !OccursAt(s, pat, j)
    ensures r.None? ==> forall j: nat :: j + |pat| <= n ==> !OccursAt(s, pat, j)
  {
    if n < |pat| then None
    else if OccursAt(s, pat, n - |pat|) then Some(n - |pat|)
    else FindLast(s, pat, n - 1)
  }

  /** `sep.join(parts)`. */
  function Join(parts: seq<string>, sep: string): string
    requires |parts| >= 1
  {
    if |parts| == 1 then parts[0] else Join(parts[..|parts| - 1], sep) + sep + parts[|parts| - 1]
  }

  /** `s.rsplit(sep)`: the separator is searched from the right, so for a separator that can
      overlap itself the pieces differ from `s.split(sep)`. Joining the pieces gives `s` back
      and no piece contains the separator. */
  function RSplit(s: string, sep: string): (r: seq<string>)
    requires |sep| > 0
    ensures |r| >= 1
    ensures Join(r, sep) == s
    ensures forall i :: 0 <= i < |r| ==> NoOccurrence(r[i], sep)
    decreases |s|
  {
    match FindLast(s, sep, |s|)
    case None => [s]
    case Some(k) =>
      var tail := s[k + |sep|..];
      TailHasNoSeparator(s, sep, k);
      assert s == s[..k] + sep + tail by {
        assert s[k..k + |sep|] == sep;
        assert s == s[..k] + s[k..k + |sep|] + s[k + |sep|..];
      }
      var pieces := RSplit(s[..k], sep) + [tail];
      assert pieces[..|pieces| - 1] == RSplit(s[..k], sep);
      pieces
  }

  /** Nothing after the last occurrence of the separator contains it. */
  lemma TailHasNoSeparator(s: string, sep: string, k: nat)
    requires |sep| > 0 && k + |sep| <= |s|
    requires forall j: nat :: k < j && j + |sep| <= |s| ==> !OccursAt(s, sep, j)
    ensures NoOccurrence(s[k + |sep|..], sep)
  {
    var tail := s[k + |sep|..];
    assert tail == s[k + |sep|..|s|];
    forall i: nat | OccursAt(tail, sep, i)
      ensures false
    {
      OccursInSlice(s, sep, k + |sep|, |s|, i);
    }
  }

  /** Joining at least two parts: the first part, the separator, then the rest joined. */
  lemma {:induction false} JoinFront(parts: seq<string>, sep: string)
    requires |parts| >= 2
    ensures Join(parts, sep) == parts[0] + sep + Join(parts[1..], sep)
    decreases |parts|
  {
    if |parts| > 2 {
      var init := parts[..|parts| - 1];
      JoinFront(init, sep);
      assert parts[1..][..|parts| - 2] == init[1..];
    }
  }

  /** The joined text starts with the first part. */
  lemma {:induction false} JoinStartsWith(parts: seq<string>, sep: string)
    requires |parts| >= 1
    ensures parts[0] <= Join(parts, sep)
    decreases |parts|
  {
    if |parts| > 1 {
      JoinStartsWith(parts[..|parts| - 1], sep);
    }
  }

  /** `s.rsplit(sep)` gives the whole of `s` as its only piece exactly when `sep` does not
      occur in `s`. */
  lemma RSplitSingle(s: string, sep: string)
    requires |sep| > 0
    ensures |RSplit(s, sep)| == 1 <==> NoOccurrence(s, sep)
  {
    match FindLast(s, sep, |s|)
    case None =>
      forall j: nat ensures !OccursAt(s, sep, j) {
      }
    case Some(k) =>
      assert |RSplit(s, sep)| == |RSplit(s[..k], sep)| + 1;
  }

  /** The first piece of `s.rsplit(sep)` starts `s`; it is all of `s` when there is no other
      piece, and the separator follows it otherwise. */
  lemma RSplitHead(s: string, sep: string)
    requires |sep| > 0
    ensures RSplit(s, sep)[0] <= s
    ensures |RSplit(s, sep)| == 1 ==> RSplit(s, sep)[0] == s
    ensures |RSplit(s, sep)| >= 2 ==> OccursAt(s, sep, |RSplit(s, sep)[0]|)
  {
    var pieces := RSplit(s, sep);
    JoinStartsWith(pieces, sep);
    if |pieces| >= 2 {
      JoinFront(pieces, sep);
      var k := |pieces[0]|;
      assert s[k..k + |sep|] == sep;
    }
  }

  /** `pat` occurs in `s` at `k` and nowhere else. */
  ghost predicate OccursOnlyAt(s: string, pat: string, k: nat)
  {
    OccursAt(s, pat, k) && forall j: nat :: j != k ==> !OccursAt(s, pat, j)
  }

  /** When the separator occurs only at the very end of `s`, the first piece of
      `s.rsplit(sep)` followed by the separator is `s`. */
  lemma RSplitHeadBeforeEnd(s: string, sep: string)
    requires |sep| > 0 && |sep| <= |s| && OccursOnlyAt(s, sep, |s| - |sep|)
    ensures RSplit(s, sep)[0] + sep == s
  {
    var pieces := RSplit(s, sep);
    RSplitHead(s, sep);
    RSplitSingle(s, sep);
    HeadAtOnlyOccurrence(s, sep, pieces[0], |pieces| == 1, |s| - |sep|);
  }

  /** A first piece that is all of `s` exactly when `sep` does not occur, and is followed by
      `sep` otherwise, ends where the only occurrence of `sep` starts. */
  lemma HeadAtOnlyOccurrence(s: string, sep: string, head: string, single: bool, k: nat)
    requires |sep| > 0 && OccursOnlyAt(s, sep, k)
    requires head <= s
    requires single ==> head == s
    requires !single ==> OccursAt(s, sep, |head|)
    requires single <==> NoOccurrence(s, sep)
    ensures head == s[..k] && head + sep == s[..k + |sep|]
  {
    assert OccursAt(s, sep, k);
    assert |head| == k;
    assert s[..k + |sep|] == s[..k] + s[k..k + |sep|];
  }

  /** `s.split(sep)[0]`: the text before the first occurrence of `sep`, or all of `s`.
      The three ensures clauses determine the result. */
  function FirstPiece(s: string, sep: string): (r: string)
    requires |sep| > 0
    ensures r <= s
    ensures NoOccurrence(r, sep)
    ensures r == s || OccursAt(s, sep, |r|)
  {
    match FindFrom(s, sep, 0)
    case None =>
      assert NoOccurrence(s, sep);
      s
    case Some(k) =>
      var head := s[..k];
      assert head == s[0..k];
      forall i: nat | OccursAt(head, sep, i)
        ensures false
      {
        OccursInSlice(s, sep, 0, k, i);
      }
      head
  }

  /** When the separator occurs in `s` only at `k`, `s.split(sep)[0]` is what precedes it. */
  lemma FirstPieceOnlyAt(s: string, sep: string, k: nat)
    requires |sep| > 0 && OccursOnlyAt(s, sep, k)
    ensures FirstPiece(s, sep) == s[..k]
  {
    var r := FirstPiece(s, sep);
    assert OccursAt(s, sep, k);
    if r == s {
      assert false;
    }
    assert |r| == k;
  }

  /** A one-character separator occurs exactly where that character stands. */
  lemma OccursAtChar(s: string, c: char, i: nat)
    ensures OccursAt(s, [c], i) <==> i < |s| && s[i] == c
  {
    if i < |s| && s[i] == c {
      assert s[i..i + 1] == [c];
    }
  }

  /** Splitting on a character that no part contains undoes joining on it. */
  lemma {:induction false} SplitJoinRoundTrip(parts: seq<string>, c: char)
    requires |parts| >= 1
    requires forall i :: 0 <= i < |parts| ==> c !in parts[i]
    ensures RSplit(Join(parts, [c]), [c]) == parts
    decreases |parts|
  {
    var s := Join(parts, [c]);
    var last := parts[|parts| - 1];
    if |parts| == 1 {
      SplitWithoutSeparator(s, c);
    } else {
      var init := parts[..|parts| - 1];
      var head := Join(init, [c]);
      assert s == head + [c] + last;
      LastSeparator(head, c, last);
      RSplitAtLast(s, c, |head|);
      assert s[..|head|] == head;
      assert s[|head| + 1..] == last;
      SplitJoinRoundTrip(init, c);
      assert RSplit(s[..|head|], [c]) == init;
      InitAndLast(parts);
    }
  }

  /** A text without the separator splits into itself. */
  lemma SplitWithoutSeparator(s: string, c: char)
    requires c !in s
    ensures RSplit(s, [c]) == [s]
  {
    forall j: nat | j + 1 <= |s|
      ensures !OccursAt(s, [c], j)
    {
      OccursAtChar(s, c, j);
    }
    assert FindLast(s, [c], |s|).None?;
  }

  /** The separator before a last part without it is the last occurrence. */
  lemma LastSeparator(head: string, c: char, last: string)
    requires c !in last
    ensures FindLast(head + [c] + last, [c], |head + [c] + last|) == Some(|head|)
  {
    var s := head + [c] + last;
    var k := |head|;
    OccursAtChar(s, c, k);
    forall j: nat | k < j && j + 1 <= |s|
      ensures !OccursAt(s, [c], j)
    {
      OccursAtChar(s, c, j);
      assert s[j] == last[j - k - 1];
    }
    var found := FindLast(s, [c], |s|);
    assert found.Some? && found.value >= k;
  }

  /** Splitting at the last separator: the pieces of what comes before it, then the rest. */
  lemma RSplitAtLast(s: string, c: char, k: nat)
    requires k < |s| && FindLast(s, [c], |s|) == Some(k)
    ensures RSplit(s, [c]) == RSplit(s[..k], [c]) + [s[k + 1..]]
  {
  }

  // ---------------------------------------------------------------------
  // Whole numbers as decimal text

  predicate IsDigit(c: char)
  {
    '0' <= c <= '9'
  }

  function DigitValue(c: char): nat
    requires IsDigit(c)
  {
    (c as int) - ('0' as int)
  }

  function DigitChar(d: nat): (c: char)
    requires d < 10
    ensures IsDigit(c) && DigitValue(c) == d
  {
    (('0' as int) + d) as char
  }

  predicate AllDigits(s: string)
  {
    forall i :: 0 <= i < |s| ==> IsDigit(s[i])
  }

  function DigitsValue(s: string): nat
    requires AllDigits(s)
  {
    if s == [] then 0 else 10 * DigitsValue(s[..|s| - 1]) + DigitValue(s[|s| - 1])
  }

  /** The decimal text of a natural number, as `str(n)` writes it. */
  function ShowNat(n: nat): (r: string)
    ensures |r| >= 1 && AllDigits(r)
  {
    if n < 10 then [DigitChar(n)] else ShowNat(n / 10) + [DigitChar(n % 10)]
  }

  /** `str(n)` for any integer. */
  function ShowInt(n: int): string
  {
    if n < 0 then "-" + ShowNat(-n) else ShowNat(n)
  }

  /** A non-empty run of decimal digits read as a number (leading zeros allowed, as `float()`
      allows them); anything else is None. */
  function ParseNat(s: string): (r: Option<nat>)
    ensures r.Some? <==> |s| >= 1 && AllDigits(s)
  {
    if |s| >= 1 && AllDigits(s) then Some(DigitsValue(s)) else None
  }

  /** Reading back what ShowNat writes gives the number. */
  lemma {:induction false} ParseShowNat(n: nat)
    ensures ParseNat(ShowNat(n)) == Some(n)
  {
    if n >= 10 {
      ParseShowNat(n / 10);
      var s := ShowNat(n);
      assert s[..|s| - 1] == ShowNat(n / 10);
      assert DigitsValue(s) == 10 * DigitsValue(ShowNat(n / 10)) + n % 10;
    }
  }

  /** The first piece of `s.rsplit(c)` for a one-character separator ends at the first `c`. */
  lemma RSplitHeadBeforeFirst(a: string, c: char, rest: string)
    requires c !in a
    ensures RSplit(a + [c] + rest, [c])[0] == a
  {
    var s := a + [c] + rest;
    var p0 := RSplit(s, [c])[0];
    assert forall j :: 0 <= j < |a| ==> s[j] == a[j];
    OccursAtChar(s, c, |a|);
    RSplitSingle(s, [c]);
    RSplitHead(s, [c]);
    OccursAtChar(s, c, |p0|);
    OccursAtChar(p0, c, |a|);
    assert |p0| == |a|;
    assert p0 == s[..|a|] == a;
  }

  // ---------------------------------------------------------------------
  // Decimal numbers as float() reads them

  function Pow10(n: nat): (r: nat)
    ensures r >= 1
  {
    if n == 0 then 1 else 10 * Pow10(n - 1)
  }

  /** The value of the digits after a decimal point. */
  function Fraction(digits: string): (r: real)
    requires AllDigits(digits)
    ensures r >= 0.0
  {
    var n: nat := DigitsValue(digits);
    var d: nat := Pow10(|digits|);
    n as real / d as real
  }

  /** The text after an optional leading `+`. */
  function Unsigned(s: string): (body: string)
    ensures body == s || (|s| > 0 && s[0] == '+' && body == s[1..])
  {
    if |s| > 0 && s[0] == '+' then s[1..] else s
  }

  /** The number that digits, a point and digits spell: the whole part plus the fraction. */
  function DecimalValue(whole: string, frac: string): (r: real)
    requires AllDigits(whole) && AllDigits(frac)
    ensures r >= 0.0
  {
    DigitsValue(whole) as real + Fraction(frac)
  }

  /** `float(s)` on the plain decimal forms: an optional `+`, then digits with at most one
      point among them and at least one digit in all. Anything else is None (a ValueError). */
  function ParseDecimal(s: string): (r: Option<real>)
    ensures r.Some? ==> r.value >= 0.0
  {
    var body := Unsigned(s);
    match FindFrom(body, ".", 0)
    case None =>
      if |body| >= 1 && AllDigits(body) then Some(DigitsValue(body) as real) else None
    case Some(p) =>
      var whole := body[..p];
      var frac := body[p + 1..];
      if AllDigits(whole) && AllDigits(frac) && |whole| + |frac| >= 1 then
        Some(DecimalValue(whole, frac))
      else None
  }

  /** The texts read as decimals, character by character: after an optional `+`, only digits
      and points, never two points, and at least one digit. */
  ghost predicate DecimalText(s: string)
  {
    var body := Unsigned(s);
    (forall i :: 0 <= i < |body| ==> IsDigit(body[i]) || body[i] == '.') &&
    (forall i, j :: 0 <= i < j < |body| && body[i] == '.' ==> body[j] != '.') &&
    (exists i :: 0 <= i < |body| && IsDigit(body[i]))
  }

  /** ParseDecimal reads exactly the decimal texts: every other text is not a number. */
  lemma ParseDecimalAccepts(s: string)
    ensures ParseDecimal(s).Some? <==> DecimalText(s)
  {
    var body := Unsigned(s);
    forall i | 0 <= i < |body|
      ensures OccursAt(body, ".", i) <==> body[i] == '.'
    {
      OccursAtChar(body, '.', i);
    }
    match FindFrom(body, ".", 0)
    case None =>
      AcceptsWithoutPoint(s, body);
    case Some(p) =>
      AcceptsWithPoint(s, body, p);
  }

  lemma AcceptsWithoutPoint(s: string, body: string)
    requires body == Unsigned(s) && FindFrom(body, ".", 0).None?
    requires forall i :: 0 <= i < |body| ==> (OccursAt(body, ".", i) <==> body[i] == '.')
    ensures ParseDecimal(s).Some? <==> DecimalText(s)
  {
    assert forall i :: 0 <= i < |body| ==> body[i] != '.' by {
      forall i | 0 <= i < |body| ensures body[i] != '.' {
        assert !OccursAt(body, ".", i);
      }
    }
    if DecimalText(s) {
      var i :| 0 <= i < |body| && IsDigit(body[i]);
    }
  }

  lemma AcceptsWithPoint(s: string, body: string, p: nat)
    requires body == Unsigned(s) && FindFrom(body, ".", 0) == Some(p)
    requires forall i :: 0 <= i < |body| ==> (OccursAt(body, ".", i) <==> body[i] == '.')
    ensures ParseDecimal(s).Some? <==> DecimalText(s)
  {
    assert p < |body| && body[p] == '.';
    var whole := body[..p];
    var frac := body[p + 1..];
    if AllDigits(whole) && AllDigits(frac) && |whole| + |frac| >= 1 {
      assert forall i :: 0 <= i < |body| && i != p ==> IsDigit(body[i]) by {
        forall i | 0 <= i < |body| && i != p ensures IsDigit(body[i]) {
          if i < p { assert body[i] == whole[i]; } else { assert body[i] == frac[i - p - 1]; }
        }
      }
      if |whole| >= 1 { assert IsDigit(body[0]); } else { assert IsDigit(body[p + 1]); }
    }
    if DecimalText(s) {
      assert forall i :: 0 <= i < p ==> body[i] != '.' by {
        forall i | 0 <= i < p ensures body[i] != '.' {
          assert !OccursAt(body, ".", i);
        }
      }
      assert AllDigits(whole) by {
        forall i | 0 <= i < |whole| ensures IsDigit(whole[i]) {
          assert whole[i] == body[i];
        }
      }
      assert AllDigits(frac) by {
        forall i | 0 <= i < |frac| ensures IsDigit(frac[i]) {
          assert frac[i] == body[p + 1 + i];
        }
      }
      var i :| 0 <= i < |body| && IsDigit(body[i]);
      assert i != p;
    }
  }

  /** A character that is neither a digit nor a point, other than a leading `+`, makes the
      text not a number; so does a text without digits. */
  lemma NotDecimalText(s: string)
    requires (exists i :: 0 <= i < |s| && !IsDigit(s[i]) && s[i] != '.' && !(i == 0 && s[i] == '+')) ||
             (forall i :: 0 <= i < |s| ==> !IsDigit(s[i]))
    ensures ParseDecimal(s) == None
  {
    ParseDecimalAccepts(s);
    var body := Unsigned(s);
    if |s| > 0 && s[0] == '+' {
      assert forall i :: 0 <= i < |body| ==> body[i] == s[i + 1];
    }
  }

  /** A run of digits reads as the whole number it spells. */
  lemma DecimalOfDigits(s: string)
    requires |s| >= 1 && AllDigits(s)
    ensures ParseDecimal(s) == Some(DigitsValue(s) as real)
  {
    forall j: nat ensures !OccursAt(s, ".", j) {
      if j < |s| {
        assert s[j..j + 1] != "." by {
          assert s[j..j + 1][0] == s[j];
        }
      }
    }
  }

  /** `float(str(n))` is `n`. */
  lemma DecimalOfShowNat(n: nat)
    ensures ParseDecimal(ShowNat(n)) == Some(n as real)
  {
    ParseShowNat(n);
    DecimalOfDigits(ShowNat(n));
  }

  /** Digits, a point and digits read as the whole part plus the fraction, for every pair of
      digit runs that are not both empty. */
  lemma DecimalWithFraction(whole: string, frac: string)
    requires AllDigits(whole) && AllDigits(frac) && |whole| + |frac| >= 1
    ensures ParseDecimal(whole + "." + frac) == Some(DecimalValue(whole, frac))
  {
    var s := whole + "." + frac;
    FirstPointAfterDigits(whole, frac);
    assert s[..|whole|] == whole;
    assert s[|whole| + 1..] == frac;
    ParseDecimalAtPoint(s, |whole|);
  }

  /** A text without sign whose first point is at `p` reads as the digits around it. */
  lemma ParseDecimalAtPoint(s: string, p: nat)
    requires Unsigned(s) == s && FindFrom(s, ".", 0) == Some(p)
    requires AllDigits(s[..p]) && AllDigits(s[p + 1..]) && |s| >= 2
    ensures ParseDecimal(s) == Some(DecimalValue(s[..p], s[p + 1..]))
  {
  }

  /** In digits, a point and more text, the point is the first one and there is no sign. */
  lemma FirstPointAfterDigits(whole: string, frac: string)
    requires AllDigits(whole)
    ensures Unsigned(whole + "." + frac) == whole + "." + frac
    ensures FindFrom(whole + "." + frac, ".", 0) == Some(|whole|)
  {
    var s := whole + "." + frac;
    assert s[|whole|] == '.';
    assert forall i :: 0 <= i < |whole| ==> s[i] == whole[i];
    if |whole| > 0 { assert IsDigit(s[0]); }
    OccursAtChar(s, '.', |whole|);
    var r := FindFrom(s, ".", 0);
    assert r.Some?;
    OccursAtChar(s, '.', r.value);
  }
}
