/** Values shared by every part of the tracker: optional values, the opaque
    wall-clock stamps, card identifiers, the hot-player descriptor, the
    excluded "Seal" identity and the decimal rendering of integers that the
    deck ids are built from. */
module Common {

  datatype Option<+T> = None | Some(value: T)

  /** An ISO-8601 stamp read from the host clock (`new Date().toISOString()`).
      The model never inspects it: it is passed in by the caller. */
  type Stamp = string

  /** A card identifier as the game service reports it in `card.cardId`. */
  type CardId = int

  /** JavaScript truthiness of an optional numeric field: a missing value
      (undefined or null) and 0 are falsy, every other number is truthy. */
  predicate Truthy(v: Option<int>)
  {
    v.Some? && v.value != 0
  }

  /** The descriptor of a tracked ("hot") player, as stored in the saved
      top-players document and handed to the deck tracker. */
  datatype HotPlayer = HotPlayer(username: string, isHot: bool, appearances: int,
                                 cards: seq<Option<CardId>>)

  // ---------------------------------------------------------------------------
  // Duplicate-free sequences (`Array.from(new Set(xs))`)

  predicate NoDuplicates<T(==)>(s: seq<T>)
  {
    forall i, j :: 0 <= i < j < |s| ==> s[i] != s[j]
  }

  /** The elements of `s` in the order of their first occurrence, each once:
      what iterating a JavaScript Set built from `s` yields. */
  function Distinct<T(==)>(s: seq<T>): (r: seq<T>)
    ensures NoDuplicates(r)
    ensures forall i :: 0 <= i < |r| ==> r[i] in s
    ensures forall i :: 0 <= i < |s| ==> s[i] in r
    ensures |r| <= |s|
  {
    if s == [] then []
    else
      var d := Distinct(s[..|s| - 1]);
      assert forall i :: 0 <= i < |s| - 1 ==> s[i] == s[..|s| - 1][i];
      if s[|s| - 1] in d then d else d + [s[|s| - 1]]
  }

  /** `Distinct` of one more element. */
  lemma DistinctSnoc<T>(s: seq<T>, x: T)
    ensures Distinct(s + [x]) == if x in Distinct(s) then Distinct(s) else Distinct(s) + [x]
  {
    var all := s + [x];
    assert all[..|all| - 1] == s;
  }

  /** An element at two positions occurs at least twice. */
  lemma TwiceInMultiset<T>(s: seq<T>, i: int, j: int)
    requires 0 <= i < j < |s| && s[i] == s[j]
    ensures multiset(s)[s[i]] >= 2
  {
    assert s == s[..j] + s[j..];
    assert s[i] in s[..j];
    assert s[j] == s[j..][0];
  }

  /** A duplicate-free sequence has as many elements as its set. */
  lemma {:induction false} NoDuplicatesCard<T>(s: seq<T>)
    requires NoDuplicates(s)
    ensures |set x | x in s| == |s|
  {
    if s != [] {
      var t := s[..|s| - 1];
      NoDuplicatesCard(t);
      assert (set x | x in s) == (set x | x in t) + {s[|s| - 1]};
      assert s[|s| - 1] !in t;
    }
  }

  /** A duplicate-free sequence holds each value at most once. */
  lemma {:induction false} NoDuplicatesCount<T>(s: seq<T>, x: T)
    requires NoDuplicates(s)
    ensures multiset(s)[x] <= 1
  {
    if s != [] {
      var t := s[..|s| - 1];
      assert s == t + [s[|s| - 1]];
      NoDuplicatesCount(t, x);
      if s[|s| - 1] == x {
        assert x !in t;
      }
    }
  }

  /** A duplicate-free sequence all of whose elements occur in `b` is no
      longer than the duplicate-free `b`. */
  lemma NoDuplicatesSubsetShorter<T>(a: seq<T>, b: seq<T>)
    requires NoDuplicates(a) && NoDuplicates(b)
    requires forall x :: x in a ==> x in b
    ensures |a| <= |b|
  {
    NoDuplicatesCard(a);
    NoDuplicatesCard(b);
    var sa, sb := set x | x in a, set x | x in b;
    assert sa <= sb;
    assert |sb| == |sa| + |sb - sa|;
  }

  // ---------------------------------------------------------------------------
  // The excluded identity

  /** `toLowerCase` on one character, restricted to ASCII letters. */
  function AsciiLower(c: char): (r: char)
    ensures 'A' <= c <= 'Z' ==> r as int == c as int + 32
    ensures !('A' <= c <= 'Z') ==> r == c
  {
    if 'A' <= c <= 'Z' then (c as int + 32) as char else c
  }

  function LowerString(s: string): (r: string)
    ensures |r| == |s|
    ensures forall i :: 0 <= i < |s| ==> r[i] == AsciiLower(s[i])
  {
    if s == [] then [] else [AsciiLower(s[0])] + LowerString(s[1..])
  }

  /** `username.toLowerCase() === 'seal'`: the one player that is never
      tracked, whatever the case of the letters. */
  predicate IsSeal(username: string)
  {
    LowerString(username) == "seal"
  }

  /** The exclusion matches exactly the four-letter spellings of "seal"
      with each letter in either case, and nothing longer or shorter. */
  lemma SealSpellings(u: string)
    ensures IsSeal(u) <==> |u| == 4 && forall i :: 0 <= i < 4 ==> u[i] == "seal"[i] || u[i] == "SEAL"[i]
  {
    if |u| == 4 {
      forall i | 0 <= i < 4
        ensures AsciiLower(u[i]) == "seal"[i] <==> u[i] == "seal"[i] || u[i] == "SEAL"[i]
      {
      }
      if forall i :: 0 <= i < 4 ==> u[i] == "seal"[i] || u[i] == "SEAL"[i] {
        assert LowerString(u) == "seal";
      }
    }
  }

  // ---------------------------------------------------------------------------
  // Decimal rendering of integers (template-string interpolation of a number)

  predicate IsDigit(c: char)
  {
    '0' <= c <= '9'
  }

  function DigitChar(d: nat): (c: char)
    requires d < 10
    ensures IsDigit(c) && c as int - '0' as int == d
  {
    ('0' as int + d) as char
  }

  function DigitValue(c: char): (d: nat)
    requires IsDigit(c)
    ensures d < 10
  {
    c as int - '0' as int
  }

  /** `${n}` for a non-negative integer: its decimal digits, no leading zero. */
  function NatToString(n: nat): (s: string)
    ensures |s| > 0
    ensures forall i :: 0 <= i < |s| ==> IsDigit(s[i])
  {
    if n < 10 then [DigitChar(n)] else NatToString(n / 10) + [DigitChar(n % 10)]
  }

  /** `${i}` for an integer: a minus sign before the digits of a negative one. */
  function IntToString(i: int): (s: string)
    ensures forall k :: 0 <= k < |s| ==> s[k] != '_'
  {
    if i < 0 then "-" + NatToString(-i) else NatToString(i)
  }

  /** The value of a string of decimal digits: the inverse of NatToString. */
  function ParseNat(s: string): nat
    requires forall i :: 0 <= i < |s| ==> IsDigit(s[i])
  {
    if s == [] then 0 else 10 * ParseNat(s[..|s| - 1]) + DigitValue(s[|s| - 1])
  }

  /** The value of an optional minus sign followed by decimal digits. */
  function ParseInt(s: string): int
    requires |s| > 0
    requires forall i :: 0 < i < |s| ==> IsDigit(s[i])
    requires s[0] == '-' || IsDigit(s[0])
  {
    if s[0] == '-' then -(ParseNat(s[1..]) as int) else ParseNat(s)
  }

  lemma {:induction false} ParseNatToString(n: nat)
    ensures ParseNat(NatToString(n)) == n
  {
    if n >= 10 {
      var s := NatToString(n);
      assert s[..|s| - 1] == NatToString(n / 10);
      ParseNatToString(n / 10);
    }
  }

  /** Rendering an integer loses nothing: parsing gives it back. */
  lemma IntToStringRoundTrip(i: int)
    ensures var s := IntToString(i);
      |s| > 0 && (s[0] == '-' || IsDigit(s[0])) && (forall k :: 0 < k < |s| ==> IsDigit(s[k]))
      && ParseInt(s) == i
  {
    var s := IntToString(i);
    if i < 0 {
      assert s[1..] == NatToString(-i);
      ParseNatToString(-i);
    } else {
      ParseNatToString(i);
    }
  }

  lemma IntToStringInjective(a: int, b: int)
    ensures IntToString(a) == IntToString(b) <==> a == b
  {
    IntToStringRoundTrip(a);
    IntToStringRoundTrip(b);
  }

  /** A string joined at an underscore splits back uniquely when the right
      part has no underscore: the last '_' is the separator. */
  lemma {:induction false} SplitAtLastUnderscore(x: string, y: string, x': string, y': string)
    requires forall k :: 0 <= k < |y| ==> y[k] != '_'
    requires forall k :: 0 <= k < |y'| ==> y'[k] != '_'
    requires x + "_" + y == x' + "_" + y'
    ensures x == x' && y == y'
  {
    var s := x + "_" + y;
    assert s[|x|] == '_';
    assert s == x' + "_" + y';
    assert s[|x'|] == '_';
    if |x| < |x'| {
      assert false;
    } else if |x'| < |x| {
      assert false;
    }
    assert x == s[..|x|] == x';
    assert y == s[|x| + 1..] == y';
  }
}
