/**
 * The few PHP and WordPress-core primitives the plugin's logic depends on:
 * PHP's truthiness of strings, `?:` and `??`, WordPress's `sanitize_key` and
 * `absint`, the decimal rendering of a number, and generic helpers over
 * sequences and maps (positions of kept elements, last-write-wins folds).
 */
module Php {

  datatype Option<+T> = None | Some(value: T) {
    /** `$x ?? $default` */
    function GetOr(default: T): T {
      if Some? then value else default
    }
  }

  /** PHP's truthiness of a string: `''` and `'0'` are the only falsy strings. */
  predicate Truthy(s: string) {
    s != "" && s != "0"
  }

  /** `$a ?: $b` on strings. */
  function Elvis(a: string, b: string): string {
    if Truthy(a) then a else b
  }

  // ---------------------------------------------------------------------
  // sanitize_key (WordPress core): lower-case ASCII letters, then drop every
  // character outside [a-z0-9_-].
  // ---------------------------------------------------------------------

  predicate IsKeyChar(c: char) {
    ('a' <= c <= 'z') || ('0' <= c <= '9') || c == '_' || c == '-'
  }

  predicate IsKey(s: string) {
    forall i :: 0 <= i < |s| ==> IsKeyChar(s[i])
  }

  function LowerAscii(c: char): char {
    if 'A' <= c <= 'Z' then (c as int + 32) as char else c
  }

  function SanitizeKey(s: string): (r: string)
    ensures IsKey(r)
    ensures |r| <= |s|
  {
    if s == [] then []
    else
      var c := LowerAscii(s[0]);
      (if IsKeyChar(c) then [c] else []) + SanitizeKey(s[1..])
  }

  /** A string made only of key characters passes through `sanitize_key` unchanged. */
  lemma {:induction false} SanitizeKeyKeepsKeys(s: string)
    requires IsKey(s)
    ensures SanitizeKey(s) == s
  {
    if s != [] {
      assert IsKey(s[1..]) by {
        forall i | 0 <= i < |s[1..]| ensures IsKeyChar(s[1..][i]) {
          assert s[1..][i] == s[i + 1];
        }
      }
      SanitizeKeyKeepsKeys(s[1..]);
      assert IsKeyChar(s[0]);
    }
  }

  /** `sanitize_key` is idempotent. */
  lemma SanitizeKeyIdempotent(s: string)
    ensures SanitizeKey(SanitizeKey(s)) == SanitizeKey(s)
  {
    SanitizeKeyKeepsKeys(SanitizeKey(s));
  }

  // ---------------------------------------------------------------------
  // Decimal numbers: JavaScript's and PHP's rendering of a natural number,
  // and PHP's `absint` (absolute value of the `(int)` cast) of a string.
  // ---------------------------------------------------------------------

  predicate IsDigit(c: char) {
    '0' <= c <= '9'
  }

  function DigitChar(d: nat): char
    requires d < 10
  {
    ('0' as int + d) as char
  }

  function NatToString(n: nat): (r: string)
    ensures |r| > 0
    ensures forall i :: 0 <= i < |r| ==> IsDigit(r[i])
  {
    if n < 10 then [DigitChar(n)] else NatToString(n / 10) + [DigitChar(n % 10)]
  }

  /** Length of the longest prefix of `s` made of decimal digits. */
  function DigitPrefix(s: string): (k: nat)
    ensures k <= |s|
    ensures forall i :: 0 <= i < k ==> IsDigit(s[i])
    ensures k < |s| ==> !IsDigit(s[k])
  {
    if s == [] || !IsDigit(s[0]) then 0 else 1 + DigitPrefix(s[1..])
  }

  function DigitsValue(d: string): nat
    requires forall i :: 0 <= i < |d| ==> IsDigit(d[i])
  {
    if d == [] then 0
    else
      assert IsDigit(d[|d| - 1]);
      DigitsValue(d[..|d| - 1]) * 10 + (d[|d| - 1] as int - '0' as int)
  }

  predicate IsSpace(c: char) {
    c == ' ' || c == '\t' || c == '\n' || c == '\r' || c == '\U{000b}' || c == '\U{000c}'
  }

  function SkipSpace(s: string): (r: string)
    ensures |r| <= |s|
  {
    if s != [] && IsSpace(s[0]) then SkipSpace(s[1..]) else s
  }

  /** `(int) $s` for a string: optional leading white space and sign, then the leading digits. */
  function IntOf(s: string): int {
    var t := SkipSpace(s);
    if t != [] && (t[0] == '-' || t[0] == '+') then
      var u := t[1..];
      var v: int := DigitsValue(u[..DigitPrefix(u)]);
      if t[0] == '-' then -v else v
    else
      DigitsValue(t[..DigitPrefix(t)])
  }

  /** WordPress's `absint`. */
  function Absint(s: string): nat {
    var i := IntOf(s);
    if i < 0 then -i else i
  }

  lemma {:induction false} DigitsValueOfNatToString(n: nat)
    ensures DigitsValue(NatToString(n)) == n
  {
    var r := NatToString(n);
    if n >= 10 {
      DigitsValueOfNatToString(n / 10);
      assert r[..|r| - 1] == NatToString(n / 10);
    }
  }

  lemma {:induction false} DigitPrefixOfDigits(s: string)
    requires forall i :: 0 <= i < |s| ==> IsDigit(s[i])
    ensures DigitPrefix(s) == |s|
  {
    if s != [] {
      DigitPrefixOfDigits(s[1..]);
    }
  }

  /** `absint` reads back the decimal rendering of every natural number. */
  lemma AbsintOfNatToString(n: nat)
    ensures Absint(NatToString(n)) == n
  {
    var r := NatToString(n);
    assert SkipSpace(r) == r;
    DigitPrefixOfDigits(r);
    assert r[..|r|] == r;
    DigitsValueOfNatToString(n);
  }

  // ---------------------------------------------------------------------
  // Generic helpers over sequences.
  // ---------------------------------------------------------------------

  /** The indices, in increasing order, of the elements of `s` that `keep` accepts. */
  function Positions<T>(s: seq<T>, keep: T -> bool): (r: seq<nat>)
    ensures forall k :: 0 <= k < |r| ==> r[k] < |s| && keep(s[r[k]])
    ensures forall k, l :: 0 <= k < l < |r| ==> r[k] < r[l]
    ensures forall j :: 0 <= j < |s| && keep(s[j]) ==> j in r
    ensures |r| <= |s|
  {
    if s == [] then []
    else
      var n := |s| - 1;
      Positions(s[..n], keep) + (if keep(s[n]) then [n] else [])
  }

  /** The elements of `s` that `keep` accepts, in their order in `s`. */
  function Filter<T>(s: seq<T>, keep: T -> bool): seq<T> {
    var ks := Positions(s, keep);
    seq(|ks|, k requires 0 <= k < |ks| => s[ks[k]])
  }

  lemma FilterMembership<T>(s: seq<T>, keep: T -> bool, x: T)
    ensures x in Filter(s, keep) <==> x in s && keep(x)
  {
    var ks := Positions(s, keep);
    var f := Filter(s, keep);
    if x in s && keep(x) {
      var j :| 0 <= j < |s| && s[j] == x;
      assert j in ks;
      var k :| 0 <= k < |ks| && ks[k] == j;
      assert f[k] == x;
    }
  }

  /** Index of the last element of `s` whose key is `k`. */
  function LastWithKey<T>(s: seq<T>, key: T -> string, k: string): (r: Option<nat>)
    ensures r.Some? ==> r.value < |s| && key(s[r.value]) == k
    ensures r.Some? ==> forall j :: r.value < j < |s| ==> key(s[j]) != k
    ensures r.None? ==> forall j :: 0 <= j < |s| ==> key(s[j]) != k
  {
    if s == [] then None
    else if key(s[|s| - 1]) == k then Some(|s| - 1)
    else LastWithKey(s[..|s| - 1], key, k)
  }

  /**
   * `foreach ($s as $x) { $m[key($x)] = val($x); }` on a PHP array used as a
   * dictionary: later elements overwrite earlier ones with the same key.
   */
  function PutAll<T>(m: map<string, string>, s: seq<T>, key: T -> string, val: T -> string): map<string, string>
  {
    if s == [] then m
    else
      var n := |s| - 1;
      PutAll(m, s[..n], key, val)[key(s[n]) := val(s[n])]
  }

  /** What a last-write-wins fold holds for a key: the last written value, or the old entry. */
  lemma {:induction false} PutAllLookup<T>(m: map<string, string>, s: seq<T>, key: T -> string, val: T -> string, k: string)
    ensures var r := PutAll(m, s, key, val);
      match LastWithKey(s, key, k)
      case Some(j) => k in r && r[k] == val(s[j])
      case None => (k in r <==> k in m) && (k in m ==> r[k] == m[k])
  {
    if s != [] {
      var n := |s| - 1;
      PutAllLookup(m, s[..n], key, val, k);
      if key(s[n]) != k {
        assert LastWithKey(s, key, k) == LastWithKey(s[..n], key, k);
        match LastWithKey(s[..n], key, k)
        case Some(j) => assert s[..n][j] == s[j];
        case None =>
      }
    }
  }

  /** The keys a last-write-wins fold ends with: the old keys and every written key. */
  lemma {:induction false} PutAllKeys<T>(m: map<string, string>, s: seq<T>, key: T -> string, val: T -> string)
    ensures PutAll(m, s, key, val).Keys == m.Keys + set i | 0 <= i < |s| :: key(s[i])
  {
    if s != [] {
      var n := |s| - 1;
      PutAllKeys(m, s[..n], key, val);
      var before := set i | 0 <= i < n :: key(s[..n][i]);
      var after := set i | 0 <= i < |s| :: key(s[i]);
      assert after == before + {key(s[n])} by {
        forall x | x in after ensures x in before + {key(s[n])} {
          var i :| 0 <= i < |s| && key(s[i]) == x;
          if i < n { assert s[..n][i] == s[i]; }
        }
        forall x | x in before ensures x in after {
          var i :| 0 <= i < n && key(s[..n][i]) == x;
          assert s[..n][i] == s[i];
        }
      }
    }
  }

  /** Two sequences whose keys agree position by position have the same last index for every key. */
  lemma LastWithKeySameKeys<T>(s: seq<T>, t: seq<T>, key: T -> string, k: string)
    requires |s| == |t| && forall i :: 0 <= i < |s| ==> key(s[i]) == key(t[i])
    ensures LastWithKey(s, key, k) == LastWithKey(t, key, k)
  {
    assert forall i :: 0 <= i < |s| ==> (key(s[i]) == k <==> key(t[i]) == k);
  }

  /** Filtering one more element appends it exactly when it is kept. */
  lemma FilterSnoc<T>(s: seq<T>, keep: T -> bool, i: nat)
    requires i < |s|
    ensures Filter(s[..i + 1], keep) == Filter(s[..i], keep) + (if keep(s[i]) then [s[i]] else [])
  {
    assert s[..i + 1][..i] == s[..i];
  }

  /** Some element of `s` passes a test exactly when one of `init`, all but its last, does or the last does. */
  lemma ExistsSnoc<T>(s: seq<T>, init: seq<T>, p: T -> bool)
    requires s != [] && init == s[..|s| - 1]
    ensures (exists i :: 0 <= i < |s| && p(s[i])) <==> (exists i :: 0 <= i < |init| && p(init[i])) || p(s[|s| - 1])
  {
    if exists i :: 0 <= i < |s| && p(s[i]) {
      var i :| 0 <= i < |s| && p(s[i]);
      if i < |init| {
        assert init[i] == s[i];
      }
    }
    if exists i :: 0 <= i < |init| && p(init[i]) {
      var i :| 0 <= i < |init| && p(init[i]);
      assert init[i] == s[i];
    }
  }

  /** The smaller of two counts. */
  function Min(a: nat, b: nat): nat {
    if a < b then a else b
  }
}
