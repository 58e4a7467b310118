/** Shared vocabulary of the scripts: optional values, errors standing for
  * raised exceptions, ASCII character classes, the string operations Python
  * scripts use, Python's code-point order on strings and its stable sort. */
module Base {

  datatype Option<T> = None | Some(value: T)

  datatype Result<T, E> = Ok(value: T) | Err(error: E)

  // ---------------------------------------------------------------- chars

  predicate IsDigit(c: char) { '0' <= c <= '9' }
  predicate IsUpper(c: char) { 'A' <= c <= 'Z' }
  predicate IsLower(c: char) { 'a' <= c <= 'z' }
  predicate IsLetter(c: char) { IsUpper(c) || IsLower(c) }
  predicate IsAlnum(c: char) { IsDigit(c) || IsLetter(c) }
  /** regex `\w` restricted to ASCII */
  predicate IsWord(c: char) { IsAlnum(c) || c == '_' }

  /** the characters Python's `str.isspace` accepts, i.e. what `str.strip()` removes */
  predicate IsSpace(c: char)
  {
    c == ' ' || ('\t' <= c <= '\r') || ('\U{1c}' <= c <= '\U{1f}') || c == '\U{85}' || c == '\U{a0}'
    || c == '\U{1680}' || ('\U{2000}' <= c <= '\U{200a}') || c == '\U{2028}' || c == '\U{2029}'
    || c == '\U{202f}' || c == '\U{205f}' || c == '\U{3000}'
  }

  predicate AllDigits(s: string) { forall i :: 0 <= i < |s| ==> IsDigit(s[i]) }

  lemma {:induction false} NoCharInDigits(s: string, c: char)
    requires AllDigits(s) && !IsDigit(c)
    ensures c !in s
  {
  }

  function DigitValue(c: char): (r: nat)
    requires IsDigit(c)
    ensures r < 10
  { (c as int) - ('0' as int) }

  function DigitChar(d: nat): (c: char)
    requires d < 10
    ensures IsDigit(c) && DigitValue(c) == d
  { (('0' as int) + d) as char }

  /** the number a string of decimal digits denotes (Python `int()` on such a string) */
  function NatOf(s: string): nat
    requires AllDigits(s)
  {
    if s == [] then 0 else 10 * NatOf(s[..|s| - 1]) + DigitValue(s[|s| - 1])
  }

  /** decimal rendering of a natural number without leading zeros (`str(n)`) */
  function NatStr(n: nat): (s: string)
    ensures |s| >= 1 && AllDigits(s)
    ensures |s| > 1 ==> s[0] != '0'
  {
    if n < 10 then [DigitChar(n)] else NatStr(n / 10) + [DigitChar(n % 10)]
  }

  /** `str(i)` for an int */
  function IntStr(i: int): string
  {
    if i < 0 then "-" + NatStr(-i) else NatStr(i)
  }

  lemma {:induction false} NatStrRoundTrip(n: nat)
    ensures NatOf(NatStr(n)) == n
  {
    if n >= 10 {
      NatStrRoundTrip(n / 10);
      var s := NatStr(n / 10) + [DigitChar(n % 10)];
      assert s[..|s| - 1] == NatStr(n / 10);
    }
  }

  /** `s` left-padded with '0' to at least `width` characters (`%0Nd` on a digit string) */
  function ZeroPad(s: string, width: nat): (r: string)
    ensures |r| == if |s| >= width then |s| else width
    ensures r[|r| - |s|..] == s
    ensures forall i :: 0 <= i < |r| - |s| ==> r[i] == '0'
  {
    if |s| >= width then s else seq(width - |s|, _ => '0') + s
  }

  /** `'%0Nd' % n` for a natural number */
  function PadNat(n: nat, width: nat): string { ZeroPad(NatStr(n), width) }

  // -------------------------------------------------------------- strings

  predicate StartsWith(s: string, p: string) { |p| <= |s| && s[..|p|] == p }
  predicate EndsWith(s: string, p: string) { |p| <= |s| && s[|s| - |p|..] == p }
  predicate OccursAt(s: string, p: string, i: nat) { i + |p| <= |s| && s[i..i + |p|] == p }
  /** Python's `p in s` on strings */
  /** a slice that begins where `p` occurs starts with `p` */
  lemma {:induction false} OccursStarts(s: string, p: string, i: nat, e: nat)
    requires OccursAt(s, p, i) && i + |p| <= e <= |s|
    ensures StartsWith(s[i..e], p)
  {
    assert s[i..e][..|p|] == s[i..i + |p|];
  }

  predicate Contains(s: string, p: string) { exists i :: 0 <= i <= |s| - |p| && OccursAt(s, p, i) }

  /** `x in xs` */
  predicate Member(xs: seq<string>, x: string) { x in xs }

  /** index of the first occurrence of `c` in `s` at or after `from`, if any */
  function FindChar(s: string, c: char, from: nat): (r: Option<nat>)
    decreases |s| - from
    ensures r.Some? ==> from <= r.value < |s| && s[r.value] == c
    ensures r.Some? ==> forall k :: from <= k < r.value ==> s[k] != c
    ensures r.None? ==> forall k :: from <= k < |s| ==> s[k] != c
  {
    if from >= |s| then None else if s[from] == c then Some(from) else FindChar(s, c, from + 1)
  }

  /** `s.split(c)` for a one-character separator: the pieces between separators */
  function Split(s: string, c: char): (r: seq<string>)
    decreases |s|
    ensures |r| >= 1
    ensures forall k :: 0 <= k < |r| ==> c !in r[k]
  {
    match FindChar(s, c, 0)
    case None => [s]
    case Some(i) => [s[..i]] + Split(s[i + 1..], c)
  }

  /** splitting at the only separator gives the two sides */
  lemma {:induction false} SplitPair(a: string, b: string, c: char)
    requires c !in a && c !in b
    ensures Split(a + [c] + b, c) == [a, b]
  {
    var s := a + [c] + b;
    assert s[|a|] == c;
    var f := FindChar(s, c, 0);
    assert f == Some(|a|);
    assert s[..|a|] == a && s[|a| + 1..] == b;
    assert FindChar(b, c, 0).None?;
  }

  /** splitting at a first separator peels off the text before it */
  lemma {:induction false} SplitCons(a: string, b: string, c: char)
    requires c !in a
    ensures Split(a + [c] + b, c) == [a] + Split(b, c)
  {
    var s := a + [c] + b;
    assert s[|a|] == c;
    assert forall k :: 0 <= k < |a| ==> s[k] == a[k];
    assert FindChar(s, c, 0) == Some(|a|);
    assert s[..|a|] == a && s[|a| + 1..] == b;
  }

  /** a string without the separator is one piece */
  lemma {:induction false} SplitNone(a: string, c: char)
    requires c !in a
    ensures Split(a, c) == [a]
  {
  }

  /** `sep.join(parts)` */
  function Join(parts: seq<string>, sep: string): string
  {
    if parts == [] then "" else if |parts| == 1 then parts[0] else parts[0] + sep + Join(parts[1..], sep)
  }

  lemma {:induction false} JoinSplit(s: string, c: char)
    ensures Join(Split(s, c), [c]) == s
    decreases |s|
  {
    match FindChar(s, c, 0)
    case None =>
    case Some(i) =>
      var rest := Split(s[i + 1..], c);
      JoinSplit(s[i + 1..], c);
      assert Split(s, c) == [s[..i]] + rest;
      assert ([s[..i]] + rest)[1..] == rest;
      assert Join([s[..i]] + rest, [c]) == s[..i] + [c] + Join(rest, [c]);
      assert s == s[..i] + [c] + s[i + 1..];
  }

  /** `s.replace(a, b)` for one-character `a` and `b` */
  function ReplaceChar(s: string, a: char, b: char): (r: string)
    ensures |r| == |s|
    ensures forall i :: 0 <= i < |s| ==> r[i] == if s[i] == a then b else s[i]
  {
    if s == [] then [] else [if s[0] == a then b else s[0]] + ReplaceChar(s[1..], a, b)
  }

  /** `s.replace(a, t)` for one-character `a` */
  function ReplaceAll(s: string, a: char, t: string): (r: string)
    ensures a !in s ==> r == s
    ensures forall c :: c in r ==> c in t || (c in s && c != a)
  {
    if s == [] then [] else (if s[0] == a then t else [s[0]]) + ReplaceAll(s[1..], a, t)
  }

  /** `s.replace(a, '')` for one-character `a` */
  function RemoveChar(s: string, a: char): (r: string)
    ensures a !in r
    ensures |r| <= |s|
    ensures forall c :: c in r <==> c in s && c != a
  {
    if s == [] then [] else (if s[0] == a then [] else [s[0]]) + RemoveChar(s[1..], a)
  }

  lemma {:induction false} RemoveCharConcat(s: string, t: string, a: char)
    ensures RemoveChar(s + t, a) == RemoveChar(s, a) + RemoveChar(t, a)
  {
    if s != [] {
      RemoveCharConcat(s[1..], t, a);
      assert (s + t)[1..] == s[1..] + t;
    } else {
      assert s + t == t;
    }
  }

  /** `s.lower()` on ASCII letters */
  function Lower(s: string): (r: string)
    ensures |r| == |s|
    ensures forall i :: 0 <= i < |s| ==> r[i] == if IsUpper(s[i]) then (s[i] as int + 32) as char else s[i]
  {
    if s == [] then [] else [if IsUpper(s[0]) then (s[0] as int + 32) as char else s[0]] + Lower(s[1..])
  }

  /** `s.upper()` on ASCII letters */
  function Upper(s: string): (r: string)
    ensures |r| == |s|
    ensures forall i :: 0 <= i < |s| ==> r[i] == if IsLower(s[i]) then (s[i] as int - 32) as char else s[i]
  {
    if s == [] then [] else [if IsLower(s[0]) then (s[0] as int - 32) as char else s[0]] + Upper(s[1..])
  }

  /** `s.lstrip(chars)` / `s.rstrip(chars)` / `s.strip(chars)`, with the stripped set as a predicate */
  function StripLeftBy(s: string, drop: char -> bool): (r: string)
    ensures |r| <= |s| && r == s[|s| - |r|..]
    ensures r != [] ==> !drop(r[0])
    ensures forall i :: 0 <= i < |s| - |r| ==> drop(s[i])
  {
    if s != [] && drop(s[0]) then StripLeftBy(s[1..], drop) else s
  }

  function StripRightBy(s: string, drop: char -> bool): (r: string)
    ensures |r| <= |s| && r == s[..|r|]
    ensures r != [] ==> !drop(r[|r| - 1])
    ensures forall i :: |r| <= i < |s| ==> drop(s[i])
  {
    if s != [] && drop(s[|s| - 1]) then StripRightBy(s[..|s| - 1], drop) else s
  }

  function StripBy(s: string, drop: char -> bool): (r: string)
    ensures r != [] ==> !drop(r[0]) && !drop(r[|r| - 1])
    ensures exists i, j :: 0 <= i <= j <= |s| && r == s[i..j]
  {
    var l := StripLeftBy(s, drop);
    var r := StripRightBy(l, drop);
    assert r == s[|s| - |l|..|s| - |l| + |r|];
    r
  }

  /** `s.strip()` */
  function Strip(s: string): (r: string)
    ensures r != [] ==> !IsSpace(r[0]) && !IsSpace(r[|r| - 1])
  { StripBy(s, IsSpace) }

  /** the part of `s` after its last '/' (`os.path.basename`) */
  function Basename(s: string): (r: string)
    ensures '/' !in r
    ensures EndsWith(s, r)
    ensures |r| < |s| ==> s[|s| - |r| - 1] == '/'
  {
    if s == [] then [] else if s[|s| - 1] == '/' then [] else Basename(s[..|s| - 1]) + [s[|s| - 1]]
  }

  // ------------------------------------------------------------- ordering

  /** Python's `<` on strings: lexicographic by code point */
  predicate LexLt(a: string, b: string)
  {
    if a == [] then b != []
    else if b == [] then false
    else if a[0] != b[0] then a[0] < b[0]
    else LexLt(a[1..], b[1..])
  }

  predicate LexLe(a: string, b: string) { a == b || LexLt(a, b) }

  lemma {:induction false} LexLtIrreflexive(a: string)
    ensures !LexLt(a, a)
  {
    if a != [] { LexLtIrreflexive(a[1..]); }
  }

  lemma {:induction false} LexLtTransitive(a: string, b: string, c: string)
    requires LexLt(a, b) && LexLt(b, c)
    ensures LexLt(a, c)
  {
    if a != [] && b != [] && c != [] && a[0] == b[0] && b[0] == c[0] {
      LexLtTransitive(a[1..], b[1..], c[1..]);
    }
  }

  lemma {:induction false} LexLtTotal(a: string, b: string)
    ensures LexLt(a, b) || a == b || LexLt(b, a)
  {
    if a != [] && b != [] && a[0] == b[0] {
      LexLtTotal(a[1..], b[1..]);
      if a[1..] == b[1..] { assert a == [a[0]] + a[1..] && b == [b[0]] + b[1..]; }
    }
  }

  lemma {:induction false} LexLtAsymmetric(a: string, b: string)
    requires LexLt(a, b)
    ensures !LexLt(b, a)
  {
    if LexLt(b, a) { LexLtTransitive(a, b, a); LexLtIrreflexive(a); }
  }

  lemma {:induction false} LexLeTransitive(a: string, b: string, c: string)
    requires LexLe(a, b) && LexLe(b, c)
    ensures LexLe(a, c)
  {
    if a != b && b != c { LexLtTransitive(a, b, c); }
  }

  /** `x` must be placed before `y` by a sort on `key` (descending when `desc`) */
  predicate Before<T>(key: T -> string, desc: bool, x: T, y: T)
  {
    if desc then LexLt(key(y), key(x)) else LexLt(key(x), key(y))
  }

  /** sorting two elements swaps them exactly when the second precedes the first */
  lemma {:induction false} SortByTwo<T>(a: T, b: T, key: T -> string, desc: bool)
    ensures SortBy([a, b], key, desc) == if Before(key, desc, b, a) then [b, a] else [a, b]
  {
    SortByOne(a, key, desc);
    InsertByOne(a, b, key, desc);
    var two := [a, b];
    assert two[..1] == [a] && two[1] == b;
    assert SortBy(two, key, desc) == InsertBy(SortBy([a], key, desc), b, key, desc);
  }

  lemma {:induction false} SortByOne<T>(a: T, key: T -> string, desc: bool)
    ensures SortBy([a], key, desc) == [a]
  {
    var one := [a];
    assert one[..0] == [] && one[0] == a;
    assert InsertBy([], a, key, desc) == [a];
  }

  lemma {:induction false} InsertByOne<T>(a: T, b: T, key: T -> string, desc: bool)
    ensures InsertBy([a], b, key, desc) == if Before(key, desc, b, a) then [b, a] else [a, b]
  {
    var one := [a];
    assert one[..0] == [] && one[0] == a;
    assert InsertBy([], b, key, desc) == [b];
  }

  /** no element is placed before one that precedes it */
  predicate SortedBy<T>(s: seq<T>, key: T -> string, desc: bool)
  {
    forall i, j :: 0 <= i < j < |s| ==> !Before(key, desc, s[j], s[i])
  }

  /** insert `x` behind every element it need not precede (keeps equal keys in arrival order) */
  function InsertBy<T>(r: seq<T>, x: T, key: T -> string, desc: bool): (q: seq<T>)
    ensures multiset(q) == multiset(r) + multiset{x}
    ensures |q| == |r| + 1
  {
    if r != [] && Before(key, desc, x, r[|r| - 1])
    then
      assert r == r[..|r| - 1] + [r[|r| - 1]];
      InsertBy(r[..|r| - 1], x, key, desc) + [r[|r| - 1]]
    else (assert r == r[..|r|]; r + [x])
  }

  /** `sorted(s, key=key, reverse=desc)`: Python's stable sort */
  function SortBy<T>(s: seq<T>, key: T -> string, desc: bool): (r: seq<T>)
    ensures multiset(r) == multiset(s)
    ensures |r| == |s|
  {
    if s == [] then [] else
      assert s == s[..|s| - 1] + [s[|s| - 1]];
      InsertBy(SortBy(s[..|s| - 1], key, desc), s[|s| - 1], key, desc)
  }

  lemma {:induction false} BeforeNot<T>(key: T -> string, desc: bool, x: T, y: T)
    requires Before(key, desc, x, y)
    ensures !Before(key, desc, y, x)
  {
    if desc { LexLtAsymmetric(key(y), key(x)); } else { LexLtAsymmetric(key(x), key(y)); }
  }

  lemma {:induction false} NotBeforeTransitive<T>(key: T -> string, desc: bool, x: T, y: T, z: T)
    requires !Before(key, desc, y, x) && !Before(key, desc, z, y)
    ensures !Before(key, desc, z, x)
  {
    LexLtTotal(key(x), key(y));
    LexLtTotal(key(y), key(z));
    if Before(key, desc, z, x) {
      if desc { LexLeTransitive(key(z), key(y), key(x)); LexLtAsymmetric(key(x), key(z)); }
      else { LexLeTransitive(key(x), key(y), key(z)); LexLtAsymmetric(key(z), key(x)); }
    }
  }

  lemma {:induction false} InsertBySorted<T>(r: seq<T>, x: T, key: T -> string, desc: bool)
    requires SortedBy(r, key, desc)
    ensures SortedBy(InsertBy(r, x, key, desc), key, desc)
    ensures r != [] && Before(key, desc, x, r[|r| - 1]) ==>
      InsertBy(r, x, key, desc)[|r|] == r[|r| - 1]
    ensures !(r != [] && Before(key, desc, x, r[|r| - 1])) ==> InsertBy(r, x, key, desc)[|r|] == x
  {
    var q := InsertBy(r, x, key, desc);
    if r != [] && Before(key, desc, x, r[|r| - 1]) {
      var p := r[..|r| - 1];
      var l := r[|r| - 1];
      InsertBySorted(p, x, key, desc);
      var pq := InsertBy(p, x, key, desc);
      assert q == pq + [l];
      forall k | 0 <= k < |p| ensures !Before(key, desc, l, p[k]) {
        assert r[k] == p[k];
      }
      InsertedBelow(p, x, l, key, desc);
      SortedSnoc(pq, l, key, desc);
    } else {
      assert q == r + [x];
      if r != [] {
        forall i | 0 <= i < |r| ensures !Before(key, desc, x, r[i]) {
          if i < |r| - 1 { NotBeforeTransitive(key, desc, r[i], r[|r| - 1], x); }
        }
      }
      SortedSnoc(r, x, key, desc);
    }
  }

  /** an element that precedes none of a sorted list can follow it */
  lemma {:induction false} SortedSnoc<T>(s: seq<T>, y: T, key: T -> string, desc: bool)
    requires SortedBy(s, key, desc)
    requires forall i :: 0 <= i < |s| ==> !Before(key, desc, y, s[i])
    ensures SortedBy(s + [y], key, desc)
  {
  }

  /** inserting an element that precedes `l` into a list none of which `l` precedes */
  lemma {:induction false} InsertedBelow<T>(p: seq<T>, x: T, l: T, key: T -> string, desc: bool)
    requires Before(key, desc, x, l)
    requires forall k :: 0 <= k < |p| ==> !Before(key, desc, l, p[k])
    ensures forall i :: 0 <= i < |InsertBy(p, x, key, desc)| ==> !Before(key, desc, l, InsertBy(p, x, key, desc)[i])
  {
    var pq := InsertBy(p, x, key, desc);
    forall i | 0 <= i < |pq| ensures !Before(key, desc, l, pq[i]) {
      assert pq[i] in multiset(pq);
      if pq[i] == x { BeforeNot(key, desc, x, l); }
      else {
        assert pq[i] in multiset(p);
        var k :| 0 <= k < |p| && p[k] == pq[i];
      }
    }
  }

  lemma {:induction false} SortBySorted<T>(s: seq<T>, key: T -> string, desc: bool)
    ensures SortedBy(SortBy(s, key, desc), key, desc)
  {
    if s != [] {
      SortBySorted(s[..|s| - 1], key, desc);
      InsertBySorted(SortBy(s[..|s| - 1], key, desc), s[|s| - 1], key, desc);
    }
  }

  lemma {:induction false} BeforeThenNotBefore<T>(key: T -> string, desc: bool, x: T, y: T, z: T)
    requires Before(key, desc, x, y) && !Before(key, desc, z, y)
    ensures Before(key, desc, x, z)
  {
    LexLtTotal(key(y), key(z));
    if desc {
      if key(z) != key(y) { LexLtTransitive(key(z), key(y), key(x)); }
    } else {
      if key(z) != key(y) { LexLtTransitive(key(x), key(y), key(z)); }
    }
  }

  /** the element that lands first: `x` exactly when it must precede the current first element */
  lemma {:induction false} InsertByHead<T>(r: seq<T>, x: T, key: T -> string, desc: bool)
    requires SortedBy(r, key, desc)
    ensures InsertBy(r, x, key, desc)[0] == if r == [] || Before(key, desc, x, r[0]) then x else r[0]
  {
    if r != [] {
      var l := r[|r| - 1];
      if Before(key, desc, x, l) {
        if |r| > 1 {
          assert SortedBy(r[..|r| - 1], key, desc);
          InsertByHead(r[..|r| - 1], x, key, desc);
        }
      } else if Before(key, desc, x, r[0]) {
        BeforeThenNotBefore(key, desc, x, r[0], l);
        assert false;
      }
    }
  }

  /** index of the first element with the greatest key (ties keep the earlier one) */
  function FirstMaxIndex<T>(s: seq<T>, key: T -> string): (i: nat)
    requires s != []
    ensures i < |s|
  {
    if |s| == 1 then 0
    else
      var j := FirstMaxIndex(s[..|s| - 1], key);
      if LexLt(key(s[j]), key(s[|s| - 1])) then |s| - 1 else j
  }

  /** index of the last element with the greatest key (ties move to the later one) */
  function LastMaxIndex<T>(s: seq<T>, key: T -> string): (i: nat)
    requires s != []
    ensures i < |s|
  {
    if |s| == 1 then 0
    else
      var j := LastMaxIndex(s[..|s| - 1], key);
      if LexLt(key(s[|s| - 1]), key(s[j])) then j else |s| - 1
  }

  lemma {:induction false} FirstMaxIndexSpec<T>(s: seq<T>, key: T -> string)
    requires s != []
    ensures forall k :: 0 <= k < |s| ==> LexLe(key(s[k]), key(s[FirstMaxIndex(s, key)]))
    ensures forall k :: 0 <= k < FirstMaxIndex(s, key) ==> LexLt(key(s[k]), key(s[FirstMaxIndex(s, key)]))
  {
    if |s| > 1 {
      var p := s[..|s| - 1];
      FirstMaxIndexSpec(p, key);
      var j := FirstMaxIndex(p, key);
      var x := s[|s| - 1];
      LexLtTotal(key(p[j]), key(x));
      forall k | 0 <= k < |s| ensures LexLe(key(s[k]), key(s[FirstMaxIndex(s, key)])) {
        if k < |s| - 1 {
          assert s[k] == p[k];
          if LexLt(key(p[j]), key(x)) { LexLeTransitive(key(p[k]), key(p[j]), key(x)); }
        }
      }
      forall k | 0 <= k < FirstMaxIndex(s, key) ensures LexLt(key(s[k]), key(s[FirstMaxIndex(s, key)])) {
        assert s[k] == p[k];
        if LexLt(key(p[j]), key(x)) && p[k] != p[j] && key(p[k]) != key(p[j]) {
          LexLtTransitive(key(p[k]), key(p[j]), key(x));
        }
      }
    }
  }

  lemma {:induction false} LastMaxIndexSpec<T>(s: seq<T>, key: T -> string)
    requires s != []
    ensures forall k :: 0 <= k < |s| ==> LexLe(key(s[k]), key(s[LastMaxIndex(s, key)]))
    ensures forall k :: LastMaxIndex(s, key) < k < |s| ==> LexLt(key(s[k]), key(s[LastMaxIndex(s, key)]))
  {
    if |s| > 1 {
      var p := s[..|s| - 1];
      LastMaxIndexSpec(p, key);
      var j := LastMaxIndex(p, key);
      var x := s[|s| - 1];
      LexLtTotal(key(p[j]), key(x));
      forall k | 0 <= k < |s| ensures LexLe(key(s[k]), key(s[LastMaxIndex(s, key)])) {
        if k < |s| - 1 {
          assert s[k] == p[k];
          if !LexLt(key(x), key(p[j])) { LexLeTransitive(key(p[k]), key(p[j]), key(x)); }
        }
      }
    }
  }

  /** when no two keys are equal the first and the last maximum coincide */
  lemma {:induction false} MaxIndexUnique<T>(s: seq<T>, key: T -> string)
    requires s != []
    requires forall i, j :: 0 <= i < j < |s| ==> key(s[i]) != key(s[j])
    ensures FirstMaxIndex(s, key) == LastMaxIndex(s, key)
  {
    FirstMaxIndexSpec(s, key);
    LastMaxIndexSpec(s, key);
    var a, b := FirstMaxIndex(s, key), LastMaxIndex(s, key);
    if a < b { LexLtAsymmetric(key(s[a]), key(s[b])); }
    if b < a { LexLtAsymmetric(key(s[b]), key(s[a])); }
  }

  /** ascending stable sort puts the last maximum at the end */
  lemma {:induction false} SortAscLast<T>(s: seq<T>, key: T -> string)
    requires s != []
    ensures SortBy(s, key, false)[|s| - 1] == s[LastMaxIndex(s, key)]
  {
    var p := s[..|s| - 1];
    var x := s[|s| - 1];
    SortBySorted(p, key, false);
    InsertBySorted(SortBy(p, key, false), x, key, false);
    if |s| > 1 {
      SortAscLast(p, key);
      assert s[LastMaxIndex(p, key)] == p[LastMaxIndex(p, key)];
    }
  }

  /** in descending order no later element has a greater key than the first */
  lemma {:induction false} SortDescBound<T>(s: seq<T>, key: T -> string)
    requires s != []
    ensures forall y :: y in SortBy(s, key, true)[1..] ==> LexLe(key(y), key(SortBy(s, key, true)[0]))
  {
    var sorted := SortBy(s, key, true);
    SortBySorted(s, key, true);
    forall y | y in sorted[1..] ensures LexLe(key(y), key(sorted[0])) {
      var j :| 0 <= j < |sorted[1..]| && sorted[1..][j] == y;
      assert !Before(key, true, sorted[j + 1], sorted[0]);
      LexLtTotal(key(sorted[0]), key(y));
    }
  }

  /** descending stable sort puts the first maximum at the front */
  lemma {:induction false} SortDescFirst<T>(s: seq<T>, key: T -> string)
    requires s != []
    ensures SortBy(s, key, true)[0] == s[FirstMaxIndex(s, key)]
  {
    var p := s[..|s| - 1];
    var x := s[|s| - 1];
    SortBySorted(p, key, true);
    InsertByHead(SortBy(p, key, true), x, key, true);
    if |s| > 1 {
      SortDescFirst(p, key);
      assert s[FirstMaxIndex(p, key)] == p[FirstMaxIndex(p, key)];
    }
  }

  /** the identity key: `sorted(xs)` on strings */
  function Self(x: string): string { x }

  function Sort(s: seq<string>): (r: seq<string>)
    ensures multiset(r) == multiset(s) && |r| == |s|
  { SortBy(s, Self, false) }

  predicate Sorted(s: seq<string>) { forall i, j :: 0 <= i < j < |s| ==> LexLe(s[i], s[j]) }

  lemma {:induction false} SortSorted(s: seq<string>)
    ensures Sorted(Sort(s))
  {
    SortBySorted(s, Self, false);
    var r := Sort(s);
    forall i, j | 0 <= i < j < |r| ensures LexLe(r[i], r[j]) {
      assert !Before(Self, false, r[j], r[i]);
      LexLtTotal(r[i], r[j]);
    }
  }

  /** replacing one element of a sequence swaps it in its multiset */
  lemma {:induction false} MultisetUpdate<T>(s: seq<T>, i: nat, x: T)
    requires i < |s|
    ensures s[i] in multiset(s)
    ensures multiset(s[i := x]) == multiset(s) - multiset{s[i]} + multiset{x}
  {
    assert s == s[..i] + [s[i]] + s[i + 1..];
    assert s[i := x] == s[..i] + [x] + s[i + 1..];
  }

  /** a sorted list is determined by its elements */
  lemma {:induction false} SortedUnique(a: seq<string>, b: seq<string>)
    requires Sorted(a) && Sorted(b) && multiset(a) == multiset(b)
    ensures a == b
    decreases |a|
  {
    if a != [] {
      SortedHead(a, b);
      TailMultiset(a, b);
      SortedUnique(a[1..], b[1..]);
      assert a == [a[0]] + a[1..] && b == [b[0]] + b[1..];
    } else {
      assert |multiset(b)| == 0;
    }
  }

  /** two sorted lists with the same elements start alike */
  lemma {:induction false} SortedHead(a: seq<string>, b: seq<string>)
    requires Sorted(a) && Sorted(b) && multiset(a) == multiset(b) && a != []
    ensures b != [] && a[0] == b[0]
  {
    assert a[0] in multiset(b);
    var i :| 0 <= i < |b| && b[i] == a[0];
    assert b[0] in multiset(a);
    var j :| 0 <= j < |a| && a[j] == b[0];
    assert LexLe(b[0], a[0]) && LexLe(a[0], b[0]);
    if a[0] != b[0] { LexLtAsymmetric(a[0], b[0]); }
  }

  lemma {:induction false} TailMultiset(a: seq<string>, b: seq<string>)
    requires a != [] && b != [] && a[0] == b[0] && multiset(a) == multiset(b)
    ensures multiset(a[1..]) == multiset(b[1..])
  {
    assert a == [a[0]] + a[1..] && b == [b[0]] + b[1..];
    assert multiset(a) == multiset{a[0]} + multiset(a[1..]);
    assert multiset(b) == multiset{b[0]} + multiset(b[1..]);
    assert multiset(a[1..]) == multiset(a) - multiset{a[0]};
    assert multiset(b[1..]) == multiset(b) - multiset{b[0]};
  }

  /** `sorted(xs)` depends only on the multiset of `xs` */
  lemma {:induction false} SortDeterminedByElements(a: seq<string>, b: seq<string>)
    requires multiset(a) == multiset(b)
    ensures Sort(a) == Sort(b)
  {
    SortSorted(a);
    SortSorted(b);
    SortedUnique(Sort(a), Sort(b));
  }

  predicate StrictlySorted(s: seq<string>) { forall i, j :: 0 <= i < j < |s| ==> LexLt(s[i], s[j]) }

  /** drop adjacent repeats of a sorted list */
  function Squeeze(s: seq<string>): (r: seq<string>)
    requires Sorted(s)
    ensures StrictlySorted(r)
    ensures forall x :: x in r <==> x in s
    ensures |r| <= |s|
  {
    if |s| <= 1 then s
    else if s[0] == s[1] then Squeeze(s[1..])
    else
      var t := Squeeze(s[1..]);
      assert forall k :: 0 <= k < |t| ==> LexLt(s[0], t[k]) by {
        forall k | 0 <= k < |t| ensures LexLt(s[0], t[k]) {
          assert t[k] in s[1..];
          var m :| 0 <= m < |s| - 1 && s[1..][m] == t[k];
          assert LexLt(s[0], s[1]) && LexLe(s[1], s[m + 1]);
          if s[1] != s[m + 1] { LexLtTransitive(s[0], s[1], s[m + 1]); }
        }
      }
      [s[0]] + t
  }

  /** `sorted(set(xs))` */
  function SortedSet(s: seq<string>): (r: seq<string>)
    ensures StrictlySorted(r)
    ensures forall x :: x in r <==> x in s
    ensures |r| <= |s|
  {
    SortSorted(s);
    assert forall x :: x in Sort(s) <==> x in s by {
      forall x ensures x in Sort(s) <==> x in s { assert x in multiset(Sort(s)) <==> x in multiset(s); }
    }
    Squeeze(Sort(s))
  }

  lemma {:induction false} StrictlySortedDistinct(s: seq<string>, i: nat, j: nat)
    requires StrictlySorted(s) && i < |s| && j < |s| && i != j
    ensures s[i] != s[j]
  {
    if i < j { LexLtIrreflexive(s[i]); } else { LexLtIrreflexive(s[j]); }
  }

  /** a strictly sorted list is determined by its set of elements */
  lemma {:induction false} StrictlySortedUnique(a: seq<string>, b: seq<string>)
    requires StrictlySorted(a) && StrictlySorted(b) && (forall x :: x in a <==> x in b)
    ensures a == b
    decreases |a|
  {
    assert b != [] ==> b[0] in a;
    if a != [] {
      assert a[0] in b;
      assert b[0] in a;
      var i :| 0 <= i < |b| && b[i] == a[0];
      var j :| 0 <= j < |a| && a[j] == b[0];
      if i != 0 && j != 0 { LexLtAsymmetric(b[0], b[i]); }
      else if i != 0 { LexLtIrreflexive(b[0]); }
      forall x ensures x in a[1..] <==> x in b[1..] {
        if x in a[1..] {
          var k :| 1 <= k < |a| && a[k] == x;
          StrictlySortedDistinct(a, 0, k);
          assert x in b;
        }
        if x in b[1..] {
          var k :| 1 <= k < |b| && b[k] == x;
          StrictlySortedDistinct(b, 0, k);
          assert x in a;
        }
      }
      StrictlySortedUnique(a[1..], b[1..]);
    }
  }

  // ---------------------------------------------------------- distinctness

  predicate Distinct<K(==)>(s: seq<K>) { forall i, j :: 0 <= i < j < |s| ==> s[i] != s[j] }

  function Elements<K>(s: seq<K>): set<K> { set x | x in s }

  lemma {:induction false} ElementsBound<K>(s: seq<K>)
    ensures |Elements(s)| <= |s|
    ensures Distinct(s) ==> |Elements(s)| == |s|
  {
    if s != [] {
      var t := s[..|s| - 1];
      ElementsBound(t);
      assert Elements(s) == Elements(t) + {s[|s| - 1]};
      if Distinct(s) {
        assert s[|s| - 1] !in Elements(t);
      }
    }
  }

  /** a list without repeats drawn from the elements of `b` is no longer than `b` */
  lemma {:induction false} DistinctWithin<K>(a: seq<K>, b: seq<K>)
    requires Distinct(a) && forall x :: x in a ==> x in b
    ensures |a| <= |b|
  {
    ElementsBound(a);
    ElementsBound(b);
    var ea, eb := Elements(a), Elements(b);
    assert eb == ea + (eb - ea);
    assert ea * (eb - ea) == {};
  }

  lemma {:induction false} DistinctCounts<K>(s: seq<K>)
    requires Distinct(s)
    ensures forall x :: multiset(s)[x] <= 1
  {
    if s != [] {
      var t := s[..|s| - 1];
      DistinctCounts(t);
      assert s == t + [s[|s| - 1]];
      assert s[|s| - 1] !in t;
    }
  }

  /** a rearrangement of a list without repeats has none */
  lemma {:induction false} DistinctPermutation<K>(a: seq<K>, b: seq<K>)
    requires Distinct(a) && multiset(a) == multiset(b)
    ensures Distinct(b)
  {
    DistinctCounts(a);
    forall i, j | 0 <= i < j < |b| ensures b[i] != b[j] {
      assert b == b[..j] + [b[j]] + b[j + 1..];
      assert b[i] in b[..j];
      assert multiset(b)[b[j]] == multiset(b[..j])[b[j]] + 1 + multiset(b[j + 1..])[b[j]];
    }
  }

  /** a sorted list without repeats is strictly sorted */
  lemma {:induction false} SortedDistinct(s: seq<string>)
    requires Sorted(s) && Distinct(s)
    ensures StrictlySorted(s)
  {}

  // --------------------------------------------------------- aggregation

  function Sum(xs: seq<int>): int
  {
    if xs == [] then 0 else Sum(xs[..|xs| - 1]) + xs[|xs| - 1]
  }

  lemma {:induction false} SumAppend(a: seq<int>, b: seq<int>)
    ensures Sum(a + b) == Sum(a) + Sum(b)
    decreases |b|
  {
    if b == [] {
      assert a + b == a;
    } else {
      assert (a + b)[..|a + b| - 1] == a + b[..|b| - 1];
      SumAppend(a, b[..|b| - 1]);
    }
  }

  /** a prefix one longer is the shorter one and the next element */
  /** what ends with `h + t` ends with `t` */
  lemma {:induction false} EndsWithTail(s: string, h: string, t: string)
    requires EndsWith(s, h + t)
    ensures EndsWith(s, t)
  {
    assert s[|s| - |t|..] == s[|s| - |h + t|..][|h|..];
  }

  /** a non-empty sequence is its first element and its tail */
  lemma {:induction false} SplitFirst<T>(s: seq<T>)
    requires s != []
    ensures [s[0]] + s[1..] == s
  {
  }

  /** a non-empty sequence is its prefix and its last element */
  lemma {:induction false} SplitLast<T>(s: seq<T>)
    requires s != []
    ensures s[..|s| - 1] + [s[|s| - 1]] == s
  {
  }

  lemma {:induction false} TakeOneMore<T>(s: seq<T>, n: nat)
    requires 0 < n <= |s|
    ensures s[..n][..n - 1] == s[..n - 1]
    ensures s[..n] == s[..n - 1] + [s[n - 1]]
    ensures forall x :: x in s[..n] <==> x in s[..n - 1] || x == s[n - 1]
  {
  }

  /** the sum of `f` over the values of `m` at the keys of `order`, in that order */
  function SumMap<K, V>(order: seq<K>, m: map<K, V>, f: V -> int): int
    requires forall k :: k in order ==> k in m
  {
    if order == [] then 0 else SumMap(order[..|order| - 1], m, f) + f(m[order[|order| - 1]])
  }

  lemma {:induction false} SumMapAppend<K, V>(a: seq<K>, b: seq<K>, m: map<K, V>, f: V -> int)
    requires forall k :: k in a + b ==> k in m
    ensures SumMap(a + b, m, f) == SumMap(a, m, f) + SumMap(b, m, f)
    decreases |b|
  {
    if b == [] {
      assert a + b == a;
    } else {
      assert (a + b)[..|a + b| - 1] == a + b[..|b| - 1];
      SumMapAppend(a, b[..|b| - 1], m, f);
    }
  }

  /** only the values at the listed keys matter */
  lemma {:induction false} SumMapFrame<K, V>(order: seq<K>, m: map<K, V>, n: map<K, V>, f: V -> int)
    requires forall k :: k in order ==> k in m && k in n && f(m[k]) == f(n[k])
    ensures SumMap(order, m, f) == SumMap(order, n, f)
  {
    if order != [] { SumMapFrame(order[..|order| - 1], m, n, f); }
  }

  /** replacing the value at one listed key changes the sum by the difference */
  lemma {:induction false} SumMapUpdate<K, V>(order: seq<K>, m: map<K, V>, k: K, v: V, f: V -> int)
    requires Distinct(order) && k in order
    requires forall j :: j in order ==> j in m
    ensures SumMap(order, m[k := v], f) == SumMap(order, m, f) - f(m[k]) + f(v)
  {
    var i :| 0 <= i < |order| && order[i] == k;
    var u, w := order[..i], order[i + 1..];
    assert order == u + [k] + w;
    assert k !in u && k !in w;
    SumMapAppend(u + [k], w, m, f);
    SumMapAppend(u + [k], w, m[k := v], f);
    SumMapAppend(u, [k], m, f);
    SumMapAppend(u, [k], m[k := v], f);
    SumMapFrame(u, m, m[k := v], f);
    SumMapFrame(w, m, m[k := v], f);
  }

  /** every listed value contributing `c` makes the sum `c` times the length */
  lemma {:induction false} SumMapConst<K, V>(order: seq<K>, m: map<K, V>, f: V -> int, c: int)
    requires forall k :: k in order ==> k in m && f(m[k]) == c
    ensures SumMap(order, m, f) == c * |order|
  {
    if order != [] { SumMapConst(order[..|order| - 1], m, f, c); }
  }

  /** two sums agree when they agree key by key */
  lemma {:induction false} SumMapAgree<K, V, W>(order: seq<K>, m: map<K, V>, f: V -> int, n: map<K, W>, g: W -> int)
    requires forall k :: k in order ==> k in m && k in n && f(m[k]) == g(n[k])
    ensures SumMap(order, m, f) == SumMap(order, n, g)
  {
    if order != [] { SumMapAgree(order[..|order| - 1], m, f, n, g); }
  }

  /** a key not yet listed: listing it with its new value adds the value */
  lemma {:induction false} SumMapAdd<K, V>(order: seq<K>, m: map<K, V>, k: K, v: V, f: V -> int)
    requires k !in order
    requires forall j :: j in order ==> j in m
    ensures SumMap(order + [k], m[k := v], f) == SumMap(order, m, f) + f(v)
  {
    assert (order + [k])[..|order|] == order;
    SumMapFrame(order, m, m[k := v], f);
  }

  lemma {:induction false} MultisetRemoveAt<K>(b: seq<K>, j: nat)
    requires j < |b|
    ensures multiset(b[..j] + b[j + 1..]) == multiset(b) - multiset{b[j]}
  {
    assert b == b[..j] + [b[j]] + b[j + 1..];
  }

  lemma {:induction false} SumMapRemoveAt<K, V>(b: seq<K>, j: nat, m: map<K, V>, f: V -> int)
    requires j < |b|
    requires forall k :: k in b ==> k in m
    ensures SumMap(b, m, f) == SumMap(b[..j] + b[j + 1..], m, f) + f(m[b[j]])
  {
    assert b == b[..j] + [b[j]] + b[j + 1..];
    SumMapAppend(b[..j] + [b[j]], b[j + 1..], m, f);
    SumMapAppend(b[..j], [b[j]], m, f);
    SumMapAppend(b[..j], b[j + 1..], m, f);
  }

  lemma {:induction false} RemoveLast<K>(a: seq<K>, b: seq<K>, j: nat)
    requires multiset(a) == multiset(b) && a != [] && j < |b| && b[j] == a[|a| - 1]
    ensures multiset(a[..|a| - 1]) == multiset(b[..j] + b[j + 1..])
    ensures forall k :: k in b[..j] + b[j + 1..] ==> k in b
  {
    MultisetRemoveAt(b, j);
    MultisetRemoveAt(a, |a| - 1);
    assert a[..|a| - 1] + a[|a|..] == a[..|a| - 1];
  }

  /** the order of the keys does not matter */
  lemma {:induction false} SumMapPermutation<K, V>(a: seq<K>, b: seq<K>, m: map<K, V>, f: V -> int)
    requires multiset(a) == multiset(b)
    requires forall k :: k in a ==> k in m
    requires forall k :: k in b ==> k in m
    ensures SumMap(a, m, f) == SumMap(b, m, f)
    decreases |a|
  {
    if a == [] {
      assert |multiset(b)| == 0;
    } else {
      var x := a[|a| - 1];
      assert x in multiset(b);
      var j :| 0 <= j < |b| && b[j] == x;
      var b1 := b[..j] + b[j + 1..];
      RemoveLast(a, b, j);
      SumMapPermutation(a[..|a| - 1], b1, m, f);
      SumMapRemoveAt(b, j, m, f);
    }
  }

  // ------------------------------------------------- Python conversions

  /** `s[i:j]` with Python's clamping of out-of-range bounds */
  function Slice<T>(s: seq<T>, i: nat, j: nat): (r: seq<T>)
    ensures j <= |s| && i <= j ==> r == s[i..j]
    ensures |r| <= |s|
  {
    var e := if j <= |s| then j else |s|;
    if i >= e then [] else s[i..e]
  }

  /** digits with single underscores between them, as `int()` accepts after the sign */
  predicate DigitGroups(b: string)
  {
    b != [] && IsDigit(b[0]) && IsDigit(b[|b| - 1])
    && (forall i :: 0 <= i < |b| ==> IsDigit(b[i]) || b[i] == '_')
    && (forall i :: 0 <= i < |b| - 1 ==> b[i] == '_' ==> b[i + 1] != '_')
  }

  lemma {:induction false} UnderscoresGone(b: string)
    requires forall i :: 0 <= i < |b| ==> IsDigit(b[i]) || b[i] == '_'
    ensures AllDigits(RemoveChar(b, '_'))
  {
    var r := RemoveChar(b, '_');
    forall i | 0 <= i < |r| ensures IsDigit(r[i]) {
      assert r[i] in r;
      var k :| 0 <= k < |b| && b[k] == r[i];
    }
  }

  /** `int(s)` on a string: surrounding whitespace, an optional sign, decimal digits
    * with single underscores between them; None where Python raises `ValueError` */
  function ParseInt(s: string): (r: Option<int>)
  {
    var t := Strip(s);
    if t == [] then None
    else
      var body := if t[0] == '-' || t[0] == '+' then t[1..] else t;
      if !DigitGroups(body) then None
      else
        UnderscoresGone(body);
        var n: int := NatOf(RemoveChar(body, '_'));
        Some(if t[0] == '-' then -n else n)
  }

  lemma {:induction false} StripDigits(s: string)
    requires AllDigits(s)
    ensures StripLeftBy(s, IsSpace) == s && StripRightBy(s, IsSpace) == s
  {}

  lemma {:induction false} RemoveAbsent(s: string, a: char)
    requires a !in s
    ensures RemoveChar(s, a) == s
  {
    if s != [] {
      assert a !in s[1..];
      RemoveAbsent(s[1..], a);
      assert s == [s[0]] + s[1..];
    }
  }

  /** `int()` of a run of digits is the number they denote */
  lemma {:induction false} ParseIntDigits(s: string)
    requires s != [] && AllDigits(s)
    ensures ParseInt(s) == Some(NatOf(s) as int)
  {
    StripDigits(s);
    assert Strip(s) == s;
    RemoveAbsent(s, '_');
  }

  /** `int(str(n))` is `n` */
  lemma {:induction false} ParseIntStr(n: nat)
    ensures ParseInt(NatStr(n)) == Some(n as int)
  {
    ParseIntDigits(NatStr(n));
    NatStrRoundTrip(n);
  }

  /** a result's list with `acc` in front (an error stays as it is) */
  function Prepend<E, X>(acc: seq<E>, r: Result<seq<E>, X>): Result<seq<E>, X>
  {
    match r
    case Ok(x) => Ok(acc + x)
    case Err(e) => Err(e)
  }

  lemma {:induction false} PrependAssoc<E, X>(a: seq<E>, b: seq<E>, r: Result<seq<E>, X>)
    ensures Prepend(a, Prepend(b, r)) == Prepend(a + b, r)
    ensures Prepend([], r) == r
  {
    if r.Ok? {
      assert a + (b + r.value) == (a + b) + r.value;
      assert [] + r.value == r.value;
    }
  }
}
