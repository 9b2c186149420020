/**
  The few string operations the admin pages rely on: JavaScript truthiness of an
  optional string, `toLowerCase` (ASCII letters only), `includes`, and the decimal
  rendering of an integer inside a template literal.
*/
module Text {
  import opened Wrappers
  import opened Seqs

  /** JavaScript truthiness of a string property: present and not the empty string. */
  predicate Truthy(s: Option<string>)
  {
    s.Some? && s.value != ""
  }

  /** `s || fallback` for an optional string property. */
  function OrElse(s: Option<string>, fallback: string): string
  {
    if Truthy(s) then s.value else fallback
  }

  predicate IsUpper(c: char)
  {
    'A' <= c <= 'Z'
  }

  /** `toLowerCase` on one character, restricted to the ASCII letters. */
  function LowerChar(c: char): (r: char)
    ensures !IsUpper(r)
    ensures !IsUpper(c) ==> r == c
  {
    if IsUpper(c) then (c as int + 32) as char else c
  }

  /** `toLowerCase` restricted to the ASCII letters. */
  function Lower(s: string): (r: string)
    ensures |r| == |s|
    ensures forall i :: 0 <= i < |s| ==> r[i] == LowerChar(s[i])
    ensures forall i :: 0 <= i < |r| ==> !IsUpper(r[i])
  {
    seq(|s|, i requires 0 <= i < |s| => LowerChar(s[i]))
  }

  /** Lower-casing twice changes nothing more: the search compares lower-cased text. */
  lemma LowerIdempotent(s: string)
    ensures Lower(Lower(s)) == Lower(s)
  {
    forall i | 0 <= i < |s|
      ensures Lower(Lower(s))[i] == Lower(s)[i]
    {
      assert !IsUpper(Lower(s)[i]);
    }
  }

  /** `t` occurs in `s` starting at index `i`. */
  predicate OccursAt(s: string, t: string, i: nat)
  {
    i + |t| <= |s| && s[i..i + |t|] == t
  }

  /** `s.includes(t)`: `t` occurs in `s` at some position. */
  predicate Includes(s: string, t: string): (r: bool)
    ensures t == [] ==> r
    ensures r ==> |t| <= |s|
  {
    assert t == [] ==> OccursAt(s, t, 0);
    exists i: nat | i <= |s| :: OccursAt(s, t, i)
  }

  /** Every string includes the empty string, so an empty search term matches every present field. */
  lemma IncludesEmpty(s: string)
    ensures Includes(s, "")
  {
    assert OccursAt(s, "", 0);
  }

  /** `field?.toLowerCase().includes(term.toLowerCase())` as a condition: an absent field never matches. */
  predicate ContainsIgnoringCase(field: Option<string>, term: string): (r: bool)
    ensures r ==> field.Some? && |term| <= |field.value|
    ensures field.Some? && term == "" ==> r
  {
    field.Some? && Includes(Lower(field.value), Lower(term))
  }

  /**
    The comparison ignores the term's case: two terms that lower-case alike
    match the same fields, and so do a term and its lower-cased form.
  */
  lemma ContainsIgnoresTermCase(field: Option<string>, a: string, b: string)
    requires Lower(a) == Lower(b)
    ensures ContainsIgnoringCase(field, a) == ContainsIgnoringCase(field, b)
    ensures ContainsIgnoringCase(field, Lower(a)) == ContainsIgnoringCase(field, b)
  {
    LowerIdempotent(a);
  }

  /** The empty term is contained in every present field. */
  lemma ContainsEmptyTerm(field: Option<string>)
    ensures ContainsIgnoringCase(field, "") <==> field.Some?
  {
    if field.Some? {
      IncludesEmpty(Lower(field.value));
    }
  }

  /** `values.filter(Boolean)` over optional strings: the present, non-empty ones, in order. */
  function TruthyStrings(values: seq<Option<string>>): (r: seq<string>)
    ensures |r| <= |values|
    ensures forall k :: 0 <= k < |r| ==> r[k] != "" && Some(r[k]) in values
    ensures forall i :: 0 <= i < |values| && Truthy(values[i]) ==> values[i].value in r
  {
    var kept := seq(|values|, i requires 0 <= i < |values| => if Truthy(values[i]) then values[i] else None);
    var r := Somes(kept);
    assert forall k :: 0 <= k < |r| ==> Some(r[k]) in kept;
    assert forall i :: 0 <= i < |values| && Truthy(values[i]) ==> kept[i] == values[i];
    r
  }

  /** `[...new Set(values.filter(Boolean))]`: the options of a drop-down. */
  function DistinctTruthy(values: seq<Option<string>>): seq<string>
  {
    Dedup(TruthyStrings(values))
  }

  /**
    The drop-down lists every present, non-empty value exactly once, in the
    order of its first appearance, and nothing else.
  */
  lemma DistinctTruthyProperties(values: seq<Option<string>>)
    ensures NoDuplicates(DistinctTruthy(values))
    ensures InFirstOccurrenceOrder(DistinctTruthy(values), TruthyStrings(values))
    ensures forall k :: 0 <= k < |DistinctTruthy(values)| ==>
              DistinctTruthy(values)[k] != "" && Some(DistinctTruthy(values)[k]) in values
    ensures forall i :: 0 <= i < |values| && Truthy(values[i]) ==> values[i].value in DistinctTruthy(values)
  {
    DedupNoDuplicates(TruthyStrings(values));
    DedupFirstOccurrenceOrder(TruthyStrings(values));
  }

  predicate IsDigit(c: char)
  {
    '0' <= c <= '9'
  }

  predicate AllDigits(s: string)
  {
    forall i :: 0 <= i < |s| ==> IsDigit(s[i])
  }

  function DigitChar(d: nat): (c: char)
    requires d < 10
    ensures IsDigit(c)
  {
    (d + '0' as int) as char
  }

  function DigitValue(c: char): (d: nat)
    requires IsDigit(c)
    ensures d < 10
  {
    c as int - '0' as int
  }

  /** The decimal digits of `n`, most significant first, without leading zeros. */
  function NatToString(n: nat): (s: string)
    ensures |s| >= 1 && AllDigits(s)
    ensures |s| > 1 ==> s[0] != '0'
    decreases n
  {
    if n < 10 then [DigitChar(n)] else NatToString(n / 10) + [DigitChar(n % 10)]
  }

  /** The number a string of decimal digits denotes. */
  function DigitsValue(s: string): nat
    requires AllDigits(s)
  {
    if s == [] then 0 else 10 * DigitsValue(s[..|s| - 1]) + DigitValue(s[|s| - 1])
  }

  /** Reading back the digits gives the number: the rendering loses nothing. */
  lemma {:induction false} NatToStringRoundTrip(n: nat)
    ensures DigitsValue(NatToString(n)) == n
    decreases n
  {
    var s := NatToString(n);
    if n < 10 {
      assert s[..0] == "";
    } else {
      NatToStringRoundTrip(n / 10);
      assert s[..|s| - 1] == NatToString(n / 10);
    }
  }

  /** Distinct numbers render as distinct strings. */
  lemma NatToStringInjective(m: nat, n: nat)
    requires NatToString(m) == NatToString(n)
    ensures m == n
  {
    NatToStringRoundTrip(m);
    NatToStringRoundTrip(n);
  }

  /** The number of decimal digits at the front of `s`. */
  function LeadingDigitCount(s: string): (k: nat)
    ensures k <= |s| && AllDigits(s[..k])
    decreases |s|
  {
    if s == [] || !IsDigit(s[0]) then 0
    else
      var k := 1 + LeadingDigitCount(s[1..]);
      assert forall i :: 1 <= i < k ==> s[..k][i] == s[1..][..k - 1][i - 1];
      k
  }

  /** The number the digits at the front of `s` denote, 0 when there are none. */
  function LeadingNumber(s: string): nat
  {
    DigitsValue(s[..LeadingDigitCount(s)])
  }

  /** A rendered number followed by a non-digit reads back as that number, and its digits end where the suffix starts. */
  lemma {:induction false} ReadRenderedNumber(n: nat, suffix: string)
    requires suffix == [] || !IsDigit(suffix[0])
    ensures LeadingDigitCount(NatToString(n) + suffix) == |NatToString(n)|
    ensures LeadingNumber(NatToString(n) + suffix) == n
  {
    DigitsThenSuffix(NatToString(n), suffix);
    var s := NatToString(n) + suffix;
    assert s[..|NatToString(n)|] == NatToString(n);
    NatToStringRoundTrip(n);
  }

  lemma {:induction false} DigitsThenSuffix(p: string, suffix: string)
    requires AllDigits(p)
    requires suffix == [] || !IsDigit(suffix[0])
    ensures LeadingDigitCount(p + suffix) == |p|
    decreases |p|
  {
    if p == [] {
      assert p + suffix == suffix;
    } else {
      assert (p + suffix)[1..] == p[1..] + suffix;
      DigitsThenSuffix(p[1..], suffix);
    }
  }

  /** `${i}` for an integer `i`: a minus sign before the digits of a negative number. */
  function IntToString(i: int): string
  {
    if i < 0 then "-" + NatToString(-i) else NatToString(i)
  }
}
