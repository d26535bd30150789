/** The part of PHP's value model that the DeployBot client leans on: values that may be null,
    arrays whose keys are strings (ordered maps), element assignment `$a[$k] = $v`,
    `array_merge`, and the string conversion done by the `.` operator. */
module PhpValues {

  datatype Option<T> = None | Some(value: T)

  /** A PHP value as the client passes it around. Floats and objects are not modelled. */
  datatype Value =
    | Null
    | Bool(b: bool)
    | Int(i: int)
    | Str(s: string)
    | Arr(entries: seq<(string, Value)>)

  /** A PHP array all of whose keys are strings: an ordered map, held as its entries in
      insertion order. A PHP array never holds a key twice (UniqueKeys). */
  type Dict<V> = seq<(string, V)>

  function Keys<V>(m: Dict<V>): seq<string>
  {
    seq(|m|, i requires 0 <= i < |m| => m[i].0)
  }

  predicate UniqueKeys<V>(m: Dict<V>)
  {
    forall i, j :: 0 <= i < j < |m| ==> m[i].0 != m[j].0
  }

  predicate NoNulls(m: Dict<Value>)
  {
    forall i :: 0 <= i < |m| ==> m[i].1 != Null
  }

  /** `is_array($v) && ! empty($v)` */
  predicate IsNonEmptyArray(v: Value)
  {
    v.Arr? && v.entries != []
  }

  /** The position of key k in m: the first entry that holds it, or |m| when none does. */
  function IndexOf<V>(m: Dict<V>, k: string): (r: nat)
    ensures r <= |m|
    ensures r < |m| ==> m[r].0 == k
    ensures forall j :: 0 <= j < r ==> m[j].0 != k
  {
    if m == [] then 0
    else if m[0].0 == k then 0
    else 1 + IndexOf(m[1..], k)
  }

  lemma KeyIndex<V>(m: Dict<V>, k: string)
    ensures k in Keys(m) <==> IndexOf(m, k) < |m|
  {
    if k in Keys(m) {
      var j :| 0 <= j < |m| && Keys(m)[j] == k;
      assert m[j].0 == k;
    }
    if IndexOf(m, k) < |m| {
      assert Keys(m)[IndexOf(m, k)] == k;
    }
  }

  /** Reading `$m[$k]`: the value stored under k, or None when k is not a key of m. */
  function Lookup<V>(m: Dict<V>, k: string): (r: Option<V>)
    ensures r.Some? <==> k in Keys(m)
    ensures r.Some? ==> (k, r.value) in m
  {
    KeyIndex(m, k);
    var i := IndexOf(m, k);
    if i < |m| then Some(m[i].1) else None
  }

  /** Writing `$m[$k] = $v`: an existing key keeps its place and takes the new value,
      a new key is appended at the end. */
  function Put<V>(m: Dict<V>, k: string, v: V): Dict<V>
  {
    var i := IndexOf(m, k);
    if i < |m| then m[i := (k, v)] else m + [(k, v)]
  }

  /** `array_merge($a, $b)` when every key is a string: start from a and assign the
      entries of b one after the other. */
  function ArrayMerge<V>(a: Dict<V>, b: Dict<V>): Dict<V>
  {
    if b == [] then a
    else
      var n := |b| - 1;
      Put(ArrayMerge(a, b[..n]), b[n].0, b[n].1)
  }

  /** The keys of ks that are not in seen, in the order of ks. */
  function Unseen(ks: seq<string>, seen: seq<string>): seq<string>
  {
    if ks == [] then []
    else
      var n := |ks| - 1;
      Unseen(ks[..n], seen) + (if ks[n] in seen then [] else [ks[n]])
  }

  lemma {:induction false} UnseenMembers(ks: seq<string>, seen: seq<string>, x: string)
    ensures x in Unseen(ks, seen) <==> x in ks && x !in seen
  {
    if ks != [] {
      var n := |ks| - 1;
      UnseenMembers(ks[..n], seen, x);
      assert ks == ks[..n] + [ks[n]];
    }
  }

  /** In a well-formed array a key is found exactly where its entry is. */
  lemma LookupUnique<V>(m: Dict<V>, i: nat)
    requires UniqueKeys(m) && i < |m|
    ensures Lookup(m, m[i].0) == Some(m[i].1)
  {
  }

  /** In a well-formed array, an entry's key reads back its value. */
  lemma LookupMember<V>(m: Dict<V>, k: string, v: V)
    requires UniqueKeys(m) && (k, v) in m
    ensures Lookup(m, k) == Some(v)
  {
  }

  /** Where a key is looked up depends only on the sequence of keys. */
  lemma IndexOfByKeys<V>(m1: Dict<V>, m2: Dict<V>, k: string)
    requires Keys(m1) == Keys(m2)
    ensures IndexOf(m1, k) == IndexOf(m2, k)
  {
    assert |m1| == |Keys(m1)| == |m2|;
    assert forall j :: 0 <= j < |m1| ==> m1[j].0 == Keys(m1)[j] == m2[j].0;
  }

  lemma IndexOfAppend<V>(m: Dict<V>, e: (string, V), k: string)
    requires k != e.0
    ensures IndexOf(m + [e], k) == IndexOf(m, k) || (IndexOf(m, k) == |m| && IndexOf(m + [e], k) == |m| + 1)
    ensures Lookup(m + [e], k) == Lookup(m, k)
  {
    assert forall j :: 0 <= j < |m| ==> (m + [e])[j] == m[j];
  }

  /** Assignment `$m[$k] = $v`: k then holds v, every other key keeps its value, the key
      order is unchanged unless k is new, in which case it comes last, and a well-formed
      array stays well-formed. */
  lemma PutSpec<V>(m: Dict<V>, k: string, v: V)
    ensures Keys(Put(m, k, v)) == if k in Keys(m) then Keys(m) else Keys(m) + [k]
    ensures Lookup(Put(m, k, v), k) == Some(v)
    ensures forall k' :: k' != k ==> Lookup(Put(m, k, v), k') == Lookup(m, k')
    ensures UniqueKeys(m) ==> UniqueKeys(Put(m, k, v))
  {
    var r := Put(m, k, v);
    var i := IndexOf(m, k);
    KeyIndex(m, k);
    if i < |m| {
      assert forall j :: 0 <= j < |m| ==> r[j].0 == m[j].0;
      assert Keys(r) == Keys(m);
      forall k' | k' != k ensures Lookup(r, k') == Lookup(m, k') {
        IndexOfByKeys(r, m, k');
      }
      IndexOfByKeys(r, m, k);
    } else {
      assert forall j :: 0 <= j < |m| ==> r[j] == m[j];
      assert r[|m|] == (k, v);
      assert Keys(r) == Keys(m) + [k];
      forall k' | k' != k ensures Lookup(r, k') == Lookup(m, k') {
        IndexOfAppend(m, (k, v), k');
      }
      assert IndexOf(r, k) == |m|;
      if UniqueKeys(m) {
        forall a, b | 0 <= a < b < |r| ensures r[a].0 != r[b].0 {
          if b == |m| {
            assert Keys(m)[a] == m[a].0;
          }
        }
      }
    }
  }

  /** Assigning a key the array does not hold yet appends it. */
  lemma PutNew<V>(m: Dict<V>, k: string, v: V)
    requires k !in Keys(m)
    ensures Put(m, k, v) == m + [(k, v)]
  {
    KeyIndex(m, k);
  }

  /** Every entry of an assignment's result was already there or is the one assigned. */
  lemma PutMembers<V>(m: Dict<V>, k: string, v: V, e: (string, V))
    requires e in Put(m, k, v)
    ensures e in m || e == (k, v)
  {
  }

  /** Every entry of `array_merge($a, $b)` is an entry of a or of b. */
  lemma {:induction false} ArrayMergeMembers<V>(a: Dict<V>, b: Dict<V>, e: (string, V))
    requires e in ArrayMerge(a, b)
    ensures e in a || e in b
  {
    if b != [] {
      var n := |b| - 1;
      PutMembers(ArrayMerge(a, b[..n]), b[n].0, b[n].1, e);
      if e in ArrayMerge(a, b[..n]) {
        ArrayMergeMembers(a, b[..n], e);
        if e in b[..n] {
          assert e in b;
        }
      }
    }
  }

  /** The last key of a well-formed array does not occur before it. */
  lemma LastKeyIsNew<V>(b: Dict<V>)
    requires UniqueKeys(b) && b != []
    ensures b[|b| - 1].0 !in Keys(b[..|b| - 1])
  {
  }

  /** `array_merge($a, $b)` on well-formed string-keyed arrays: the keys of a come first in
      their order, followed by the keys only b has, in b's order, and the result is a
      well-formed array. */
  lemma {:induction false} ArrayMergeKeys<V>(a: Dict<V>, b: Dict<V>)
    requires UniqueKeys(a) && UniqueKeys(b)
    ensures UniqueKeys(ArrayMerge(a, b))
    ensures Keys(ArrayMerge(a, b)) == Keys(a) + Unseen(Keys(b), Keys(a))
  {
    if b != [] {
      var n := |b| - 1;
      var b', k := b[..n], b[n].0;
      ArrayMergeKeys(a, b');
      PutSpec(ArrayMerge(a, b'), k, b[n].1);
      assert Keys(b)[..n] == Keys(b');
      LastKeyIsNew(b);
      UnseenMembers(Keys(b'), Keys(a), k);
    }
  }

  /** Dropping the last entry of an array leaves every other key where it was. */
  lemma LookupDropLast<V>(b: Dict<V>, k: string)
    requires b != [] && k != b[|b| - 1].0
    ensures Lookup(b, k) == Lookup(b[..|b| - 1], k)
    ensures k in Keys(b) <==> k in Keys(b[..|b| - 1])
  {
  }

  /** `array_merge($a, $b)` when b is well-formed: a key of b takes b's value, any other
      key keeps a's value. */
  lemma {:induction false} ArrayMergeLookup<V>(a: Dict<V>, b: Dict<V>, k: string)
    requires UniqueKeys(b)
    ensures Lookup(ArrayMerge(a, b), k) == if k in Keys(b) then Lookup(b, k) else Lookup(a, k)
  {
    if b != [] {
      var n := |b| - 1;
      var b' := b[..n];
      ArrayMergeLookup(a, b', k);
      PutSpec(ArrayMerge(a, b'), b[n].0, b[n].1);
      if k == b[n].0 {
        LookupUnique(b, n);
      } else {
        LookupDropLast(b, k);
      }
    }
  }

  /** Merging a well-formed array onto an empty one gives it back unchanged. */
  lemma {:induction false} ArrayMergeOntoEmpty<V>(m: Dict<V>)
    requires UniqueKeys(m)
    ensures ArrayMerge([], m) == m
  {
    if m != [] {
      var n := |m| - 1;
      assert m == m[..n] + [m[n]];
      ArrayMergeOntoEmpty(m[..n]);
      assert m[n].0 !in Keys(m[..n]);
    }
  }

  // ---------------------------------------------------------------------------
  // String conversion, as done by PHP's `.` operator

  predicate IsDigit(c: char)
  {
    '0' <= c <= '9'
  }

  predicate AllDigits(s: string)
  {
    forall i :: 0 <= i < |s| ==> IsDigit(s[i])
  }

  /** The decimal numeral of n, without leading zeros. */
  function NatString(n: nat): (s: string)
    ensures |s| > 0 && AllDigits(s)
    ensures s[0] != '0' || s == "0"
  {
    if n < 10 then [(48 + n) as char]
    else NatString(n / 10) + [(48 + n % 10) as char]
  }

  /** The value of a numeral. */
  function ParseNat(s: string): nat
    requires AllDigits(s)
  {
    if s == [] then 0
    else 10 * ParseNat(s[..|s| - 1]) + (s[|s| - 1] as int - 48)
  }

  /** The string PHP makes of an integer: its decimal numeral, with a minus sign when negative. */
  function IntString(n: int): (s: string)
    ensures IsCanonicalIntString(s)
  {
    if n < 0 then "-" + NatString(-n) else NatString(n)
  }

  predicate IsIntString(s: string)
  {
    (|s| > 1 && s[0] == '-' && AllDigits(s[1..])) || AllDigits(s)
  }

  /** A numeral as PHP writes one: digits with no leading zero (except "0" itself),
      optionally after a minus sign, and never "-0". */
  predicate IsCanonicalIntString(s: string)
  {
    || (|s| > 1 && s[0] == '-' && AllDigits(s[1..]) && s[1] != '0')
    || (|s| > 0 && AllDigits(s) && (s[0] != '0' || s == "0"))
  }

  function ParseInt(s: string): int
    requires IsIntString(s)
  {
    if |s| > 1 && s[0] == '-' && AllDigits(s[1..]) then -(ParseNat(s[1..]) as int) else ParseNat(s)
  }

  lemma {:induction false} NatStringRoundTrip(n: nat)
    ensures ParseNat(NatString(n)) == n
  {
    if n >= 10 {
      var s := NatString(n);
      assert s[..|s| - 1] == NatString(n / 10);
      NatStringRoundTrip(n / 10);
    }
  }

  /** Converting an integer to a string loses nothing: the numeral reads back as the integer. */
  lemma IntStringRoundTrip(n: int)
    ensures IsIntString(IntString(n)) && ParseInt(IntString(n)) == n
  {
    var s := IntString(n);
    if n < 0 {
      assert s[1..] == NatString(-n);
      NatStringRoundTrip(-n);
    } else {
      NatStringRoundTrip(n);
    }
  }

  /** A numeral with a non-zero leading digit denotes a positive number. */
  lemma {:induction false} ParseNatPositive(s: string)
    requires |s| > 0 && AllDigits(s) && s[0] != '0'
    ensures ParseNat(s) >= 1
  {
    if |s| > 1 {
      ParseNatPositive(s[..|s| - 1]);
    }
  }

  /** A canonical unsigned numeral is the numeral of its own value. */
  lemma {:induction false} NatStringOfParse(s: string)
    requires |s| > 0 && AllDigits(s) && (s[0] != '0' || s == "0")
    ensures NatString(ParseNat(s)) == s
  {
    if |s| > 1 {
      var p := s[..|s| - 1];
      NatStringOfParse(p);
      ParseNatPositive(p);
      var n := ParseNat(s);
      assert n / 10 == ParseNat(p) && n % 10 == s[|s| - 1] as int - 48;
      assert s == p + [s[|s| - 1]];
    }
  }

  /** Each integer has exactly one canonical numeral: the one IntString makes. */
  lemma CanonicalIntStringUnique(s: string)
    requires IsCanonicalIntString(s)
    ensures IsIntString(s) && s == IntString(ParseInt(s))
  {
    if |s| > 1 && s[0] == '-' && AllDigits(s[1..]) && s[1] != '0' {
      NatStringOfParse(s[1..]);
      ParseNatPositive(s[1..]);
      assert s == "-" + s[1..];
    } else {
      NatStringOfParse(s);
    }
  }

  /** `(string) $v`, as `'prefix' . $v` computes it: null and false give the empty string,
      true gives "1", an integer its numeral, and an array the word "Array". */
  function PhpString(v: Value): (s: string)
    ensures v.Str? ==> s == v.s
    ensures v.Int? ==> IsCanonicalIntString(s) && IsIntString(s) && ParseInt(s) == v.i
    ensures v == Bool(true) ==> s == "1"
    ensures v.Arr? ==> s == "Array"
    ensures v == Null || v == Bool(false) <==> s == "" && !v.Str?
  {
    match v
    case Null => ""
    case Bool(b) => if b then "1" else ""
    case Int(i) => IntStringRoundTrip(i); IntString(i)
    case Str(s) => s
    case Arr(_) => "Array"
  }
}
