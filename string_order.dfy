/**
 * `String.compareTo`: the lexicographic order of the UTF-16 code units, a
 * proper prefix first. It is the key order of a `TreeMap<String, ...>`.
 */
module StringOrder {
  import opened Hashing

  /** Lexicographic order on code-unit sequences, a proper prefix before its extensions. */
  predicate UnitsLess(x: seq<int>, y: seq<int>)
  {
    if x == [] then y != []
    else if y == [] then false
    else x[0] < y[0] || (x[0] == y[0] && UnitsLess(x[1..], y[1..]))
  }

  /** `a.compareTo(b) < 0`. */
  predicate Precedes(a: string, b: string)
  {
    UnitsLess(Utf16(a), Utf16(b))
  }

  lemma {:induction false} UnitsLessIsIrreflexive(x: seq<int>)
    ensures !UnitsLess(x, x)
  {
    if x != [] {
      UnitsLessIsIrreflexive(x[1..]);
    }
  }

  lemma {:induction false} UnitsLessIsTransitive(x: seq<int>, y: seq<int>, z: seq<int>)
    requires UnitsLess(x, y) && UnitsLess(y, z)
    ensures UnitsLess(x, z)
  {
    if x != [] && y != [] && z != [] && x[0] == y[0] == z[0] {
      UnitsLessIsTransitive(x[1..], y[1..], z[1..]);
    }
  }

  lemma {:induction false} UnitsLessIsTotal(x: seq<int>, y: seq<int>)
    requires x != y
    ensures UnitsLess(x, y) || UnitsLess(y, x)
  {
    if x != [] && y != [] && x[0] == y[0] {
      assert x == [x[0]] + x[1..] && y == [y[0]] + y[1..];
      UnitsLessIsTotal(x[1..], y[1..]);
    }
  }

  /** Distinct strings have distinct UTF-16 encodings: a high surrogate only starts a pair. */
  lemma {:induction false} Utf16IsInjective(a: string, b: string)
    requires Utf16(a) == Utf16(b)
    ensures a == b
  {
    if a != [] && b != [] {
      var ca, cb := a[0] as int, b[0] as int;
      var u := Utf16(a);
      LeadingUnit(a);
      LeadingUnit(b);
      if ca < 0x1_0000 && cb < 0x1_0000 {
        assert u == [ca] + Utf16(a[1..]) && u == [cb] + Utf16(b[1..]);
        assert u[1..] == Utf16(a[1..]) == Utf16(b[1..]);
      } else if ca >= 0x1_0000 && cb >= 0x1_0000 {
        var ha, la := 0xD800 + (ca - 0x1_0000) / 0x400, 0xDC00 + (ca - 0x1_0000) % 0x400;
        var hb, lb := 0xD800 + (cb - 0x1_0000) / 0x400, 0xDC00 + (cb - 0x1_0000) % 0x400;
        assert u == [ha, la] + Utf16(a[1..]) && u == [hb, lb] + Utf16(b[1..]);
        assert ha == u[0] == hb && la == u[1] == lb;
        assert ca - 0x1_0000 == 0x400 * ((ca - 0x1_0000) / 0x400) + (ca - 0x1_0000) % 0x400;
        assert cb - 0x1_0000 == 0x400 * ((cb - 0x1_0000) / 0x400) + (cb - 0x1_0000) % 0x400;
        assert u[2..] == Utf16(a[1..]) == Utf16(b[1..]);
      } else {
        assert false;
      }
      Utf16IsInjective(a[1..], b[1..]);
      assert a == [a[0]] + a[1..] && b == [b[0]] + b[1..];
    }
  }

  /** The first code unit is a high surrogate exactly when the first character is outside the basic plane. */
  lemma LeadingUnit(s: string)
    requires s != []
    ensures (s[0] as int) < 0x1_0000 <==> !(0xD800 <= Utf16(s)[0] < 0xDC00)
  {
  }

  /** `compareTo` orders strings strictly and totally. */
  lemma PrecedesIsStrictTotalOrder(a: string, b: string, c: string)
    ensures !Precedes(a, a)
    ensures Precedes(a, b) && Precedes(b, c) ==> Precedes(a, c)
    ensures a != b ==> Precedes(a, b) || Precedes(b, a)
    ensures Precedes(a, b) ==> !Precedes(b, a)
  {
    UnitsLessIsIrreflexive(Utf16(a));
    if Precedes(a, b) && Precedes(b, c) {
      UnitsLessIsTransitive(Utf16(a), Utf16(b), Utf16(c));
    }
    if a != b && Utf16(a) == Utf16(b) {
      Utf16IsInjective(a, b);
    }
    if a != b {
      UnitsLessIsTotal(Utf16(a), Utf16(b));
    }
    if Precedes(a, b) && Precedes(b, a) {
      UnitsLessIsTransitive(Utf16(a), Utf16(b), Utf16(a));
    }
  }

  /** Strictly ascending: each element precedes every later one. */
  predicate Ascending(names: seq<string>)
  {
    forall i, j :: 0 <= i < j < |names| ==> Precedes(names[i], names[j])
  }

  /** A non-empty finite set of strings has a least element. */
  lemma {:induction false} LeastExists(keys: set<string>)
    requires keys != {}
    ensures exists m :: m in keys && forall k :: k in keys && k != m ==> Precedes(m, k)
    decreases |keys|
  {
    var x :| x in keys;
    var rest := keys - {x};
    if rest == {} {
      forall k | k in keys ensures k == x {
        assert k !in rest;
      }
    } else {
      LeastExists(rest);
      var m :| m in rest && forall k :: k in rest && k != m ==> Precedes(m, k);
      PrecedesIsStrictTotalOrder(x, m, x);
      if Precedes(x, m) {
        forall k | k in keys && k != x ensures Precedes(x, k) {
          if k != m {
            PrecedesIsStrictTotalOrder(x, m, k);
          }
        }
      } else {
        assert m in keys;
        forall k | k in keys && k != m ensures Precedes(m, k) {
          if k == x {
            PrecedesIsStrictTotalOrder(m, x, m);
          }
        }
      }
    }
  }

  /** The keys of a tree map in iteration order: every key once, ascending. */
  method AscendingKeys(keys: set<string>) returns (names: seq<string>)
    ensures Ascending(names)
    ensures forall k :: k in keys <==> k in names
    ensures |names| == |keys|
  {
    names := [];
    var remaining := keys;
    while remaining != {}
      invariant remaining <= keys
      invariant Ascending(names)
      invariant forall k :: k in keys <==> k in names || k in remaining
      invariant forall k :: k in names ==> k !in remaining
      invariant forall i, k :: 0 <= i < |names| && k in remaining ==> Precedes(names[i], k)
      invariant |names| + |remaining| == |keys|
      decreases |remaining|
    {
      LeastExists(remaining);
      var m :| m in remaining && forall k :: k in remaining && k != m ==> Precedes(m, k);
      names := names + [m];
      remaining := remaining - {m};
    }
  }

  /** In an ascending sequence, an element precedes a later one and no earlier one. */
  lemma AscendingPositions(names: seq<string>, i: int, j: int)
    requires Ascending(names) && 0 <= i < |names| && 0 <= j < |names|
    ensures Precedes(names[i], names[j]) <==> i < j
  {
    if j <= i {
      if j == i {
        PrecedesIsStrictTotalOrder(names[i], names[i], names[i]);
      } else {
        PrecedesIsStrictTotalOrder(names[j], names[i], names[j]);
      }
    }
  }

  /** A prefix sorts first, and upper-case letters before lower-case ones. */
  lemma CompareToExamples()
    ensures Precedes("", "a") && Precedes("a", "ab") && Precedes("ab", "b")
    ensures Precedes("B", "a")
  {
    assert "ab"[1..] == "b";
    assert Utf16("a") == [97];
    assert Utf16("b") == [98];
    assert Utf16("B") == [66];
    assert Utf16("ab") == [97] + Utf16("b");
  }
}
