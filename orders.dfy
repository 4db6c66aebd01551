/** The key orders a TreeMap iterates in: `String.compareTo`, on UTF-16 code
    units, for one key, and first key then second key for the key pairs of a
    two-dimensional tree map. */
module Orders {

  /** The keys of every parameter map. */
  type Key = string

  /** The UTF-16 code units of one character, as a Java String stores it: one
      unit below U+10000, otherwise a high and a low surrogate. */
  function CodeUnits(c: char): (u: seq<int>)
    ensures 1 <= |u| <= 2
    ensures |u| == 1 <==> c as int < 0x10000
    ensures |u| == 1 ==> u[0] == c as int
    ensures |u| == 2 ==> 0xD800 <= u[0] < 0xDC00 && 0xDC00 <= u[1] < 0xE000
  {
    if c as int < 0x10000 then [c as int]
    else
      var v := c as int - 0x10000;
      [0xD800 + v / 0x400, 0xDC00 + v % 0x400]
  }

  /** The char sequence of a Java String: the code units of its characters. */
  function Utf16(s: Key): seq<int> {
    if s == [] then [] else CodeUnits(s[0]) + Utf16(s[1..])
  }

  /** Lexicographic order on code units: the first differing unit decides,
      and a proper prefix comes first. */
  predicate UnitsLess(a: seq<int>, b: seq<int>)
    decreases |a|
  {
    if |a| == 0 then |b| > 0
    else if |b| == 0 then false
    else if a[0] != b[0] then a[0] < b[0]
    else UnitsLess(a[1..], b[1..])
  }

  /** String.compareTo(a, b) < 0: compares the UTF-16 code units, not the
      code points, of the two strings. */
  predicate StringLess(a: Key, b: Key) {
    UnitsLess(Utf16(a), Utf16(b))
  }

  /** The order of a TwoDimensionalMap built from tree maps: by first key,
      then by second key. */
  predicate PairLess(p: (Key, Key), q: (Key, Key)) {
    StringLess(p.0, q.0) || (p.0 == q.0 && StringLess(p.1, q.1))
  }

  ghost predicate StrictTotalOrder<K(!new)>(less: (K, K) -> bool) {
    && (forall a :: !less(a, a))
    && (forall a, b, c :: less(a, b) && less(b, c) ==> less(a, c))
    && (forall a, b :: a != b ==> less(a, b) || less(b, a))
  }

  /** Every key precedes every later key. */
  ghost predicate StrictlySorted<K>(less: (K, K) -> bool, s: seq<K>) {
    forall i, j :: 0 <= i < j < |s| ==> less(s[i], s[j])
  }

  lemma {:induction false} UnitsLessIrreflexive(a: seq<int>)
    ensures !UnitsLess(a, a)
    decreases |a|
  {
    if |a| > 0 {
      UnitsLessIrreflexive(a[1..]);
    }
  }

  lemma {:induction false} UnitsLessTransitive(a: seq<int>, b: seq<int>, c: seq<int>)
    requires UnitsLess(a, b) && UnitsLess(b, c)
    ensures UnitsLess(a, c)
    decreases |a|
  {
    if |a| > 0 && a[0] == b[0] && b[0] == c[0] {
      UnitsLessTransitive(a[1..], b[1..], c[1..]);
    }
  }

  lemma {:induction false} UnitsLessTotal(a: seq<int>, b: seq<int>)
    requires a != b
    ensures UnitsLess(a, b) || UnitsLess(b, a)
    decreases |a|
  {
    if |a| > 0 && |b| > 0 && a[0] == b[0] {
      assert a == [a[0]] + a[1..] && b == [b[0]] + b[1..];
      UnitsLessTotal(a[1..], b[1..]);
    }
  }

  /** Two different characters have code units that differ at a position
      both encodings have. */
  lemma CodeUnitsDiffer(c: char, d: char) returns (i: nat)
    requires c != d
    ensures i < |CodeUnits(c)| && i < |CodeUnits(d)| && CodeUnits(c)[i] != CodeUnits(d)[i]
  {
    var u, w := CodeUnits(c), CodeUnits(d);
    if |u| == 2 && |w| == 2 && u[0] == w[0] {
      var v, x := c as int - 0x10000, d as int - 0x10000;
      assert v == v / 0x400 * 0x400 + v % 0x400;
      assert x == x / 0x400 * 0x400 + x % 0x400;
      i := 1;
    } else {
      i := 0;
    }
  }

  /** Different strings have different code units, so the code-unit order
      compares every two different keys. */
  lemma {:induction false} Utf16Injective(a: Key, b: Key)
    requires a != b
    ensures Utf16(a) != Utf16(b)
    decreases |a|
  {
    if a == [] || b == [] {
      assert |Utf16(a)| > 0 || |Utf16(b)| > 0;
    } else if a[0] == b[0] {
      assert a == [a[0]] + a[1..] && b == [b[0]] + b[1..];
      Utf16Injective(a[1..], b[1..]);
      var n := |CodeUnits(a[0])|;
      assert Utf16(a)[n..] == Utf16(a[1..]);
      assert Utf16(b)[n..] == Utf16(b[1..]);
    } else {
      var i := CodeUnitsDiffer(a[0], b[0]);
      assert Utf16(a)[i] == CodeUnits(a[0])[i];
      assert Utf16(b)[i] == CodeUnits(b[0])[i];
    }
  }

  lemma StringLessIrreflexive(a: Key)
    ensures !StringLess(a, a)
  {
    UnitsLessIrreflexive(Utf16(a));
  }

  lemma StringLessTransitive(a: Key, b: Key, c: Key)
    requires StringLess(a, b) && StringLess(b, c)
    ensures StringLess(a, c)
  {
    UnitsLessTransitive(Utf16(a), Utf16(b), Utf16(c));
  }

  lemma StringLessTotal(a: Key, b: Key)
    requires a != b
    ensures StringLess(a, b) || StringLess(b, a)
  {
    Utf16Injective(a, b);
    UnitsLessTotal(Utf16(a), Utf16(b));
  }

  /** Java orders every key that starts with a supplementary character
      before every key that starts with a character in U+E000..U+FFFF,
      whatever follows: the high surrogate is below 0xE000, although the
      code point is above 0xFFFF. Code-point order would give the reverse. */
  lemma SupplementaryBeforeHighBmp(a: Key, b: Key)
    requires a != [] && b != []
    requires a[0] as int >= 0x10000 && 0xE000 <= b[0] as int < 0x10000
    ensures StringLess(a, b) && !StringLess(b, a)
  {
    assert Utf16(a)[0] == CodeUnits(a[0])[0];
    assert Utf16(b)[0] == CodeUnits(b[0])[0];
  }

  /** For instance "\U{1F600}" sorts before "\U{FFFD}". */
  lemma SurrogatesBeforeHighBmp()
    ensures StringLess("\U{1F600}", "\U{FFFD}")
    ensures !StringLess("\U{FFFD}", "\U{1F600}")
  {
    SupplementaryBeforeHighBmp("\U{1F600}", "\U{FFFD}");
  }

  /** String.compareTo is a strict total order, as a TreeMap needs. */
  lemma StringOrder()
    ensures StrictTotalOrder(StringLess)
  {
    forall a ensures !StringLess(a, a) {
      StringLessIrreflexive(a);
    }
    forall a, b, c | StringLess(a, b) && StringLess(b, c) ensures StringLess(a, c) {
      StringLessTransitive(a, b, c);
    }
    forall a, b | a != b ensures StringLess(a, b) || StringLess(b, a) {
      StringLessTotal(a, b);
    }
  }

  /** The key-pair order is a strict total order too. */
  lemma PairOrder()
    ensures StrictTotalOrder(PairLess)
  {
    StringOrder();
  }

  /** A strictly sorted sequence holds no key twice. */
  lemma SortedDistinct<K(!new)>(less: (K, K) -> bool, s: seq<K>)
    requires StrictTotalOrder(less) && StrictlySorted(less, s)
    ensures forall i, j :: 0 <= i < j < |s| ==> s[i] != s[j]
  {
  }

  /** A set of keys has one strictly sorted enumeration only: the iteration
      order of a tree map depends on its key set and not on how it was built. */
  lemma {:induction false} SortedUnique<K(!new)>(less: (K, K) -> bool, a: seq<K>, b: seq<K>)
    requires StrictTotalOrder(less)
    requires StrictlySorted(less, a) && StrictlySorted(less, b)
    requires forall k :: k in a <==> k in b
    ensures a == b
    decreases |a|
  {
    assert a != [] ==> a[0] in b;
    assert b != [] ==> b[0] in a;
    if a != [] {
      SortedHead(less, a);
      SortedHead(less, b);
      assert a[0] == b[0];
      forall k ensures k in a[1..] <==> k in b[1..] {
        assert k in a[1..] <==> k in a && k != a[0];
        assert k in b[1..] <==> k in b && k != b[0];
      }
      SortedUnique(less, a[1..], b[1..]);
      assert a == [a[0]] + a[1..] && b == [b[0]] + b[1..];
    }
  }

  /** The first key of a strictly sorted sequence precedes all the others. */
  lemma SortedHead<K(!new)>(less: (K, K) -> bool, s: seq<K>)
    requires StrictTotalOrder(less) && StrictlySorted(less, s) && s != []
    ensures forall k :: k in s[1..] <==> k in s && k != s[0]
    ensures forall k :: k in s && k != s[0] ==> less(s[0], k)
  {
    forall k | k in s[1..] ensures k in s && k != s[0] && less(s[0], k) {
      var x :| 1 <= x < |s| && s[x] == k;
    }
    forall k | k in s && k != s[0] ensures k in s[1..] {
      var x :| 0 <= x < |s| && s[x] == k;
      assert x >= 1;
    }
  }
}
