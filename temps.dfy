/**
 * Temporaries of the generated C code and the ordered registry of those
 * that still need releasing on an exit path.
 */
module Temps {

  import opened CCode

  /** The C type tags the release code dispatches on. */
  const PyObjectPtr: string := "PyObject *"
  const NuitkaBool: string := "nuitka_bool"
  const NuitkaVoid: string := "nuitka_void"

  /** A C temporary: its name in the generated code and its C type tag. */
  datatype TempName = TempName(name: string, cType: string)

  predicate KnownCType(cType: string)
  {
    cType == PyObjectPtr || cType == NuitkaBool || cType == NuitkaVoid
  }

  predicate NoDuplicates<T(==)>(s: seq<T>)
  {
    |s| == 0 || (s[0] !in s[1..] && NoDuplicates(s[1..]))
  }

  /** No two registered temporaries share a C name. */
  predicate UniqueNames(c: seq<TempName>)
  {
    |c| == 0 || ((forall t :: t in c[1..] ==> t.name != c[0].name) && UniqueNames(c[1..]))
  }

  /** `c` with every element of `ns` removed, order kept. */
  function Without(c: seq<TempName>, ns: seq<TempName>): (r: seq<TempName>)
    ensures forall x :: x in r <==> x in c && x !in ns
    ensures |r| <= |c|
  {
    if |c| == 0 then [] else (if c[0] in ns then [] else [c[0]]) + Without(c[1..], ns)
  }

  /** `s` with every repetition after the first occurrence dropped. */
  function Dedup(s: seq<TempName>): (r: seq<TempName>)
    ensures forall x :: x in r <==> x in s
    ensures NoDuplicates(r)
    decreases |s|
  {
    if |s| == 0 then []
    else
      var rest := Dedup(Without(s[1..], [s[0]]));
      assert ([s[0]] + rest)[1..] == rest;
      [s[0]] + rest
  }

  /** One `Py_DECREF` per temporary, in order. */
  function DecRefs(ts: seq<TempName>): seq<CStatement>
  {
    seq(|ts|, i requires 0 <= i < |ts| => DecRef(ts[i].name))
  }

  lemma {:induction false} WithoutWithout(c: seq<TempName>, a: seq<TempName>, b: seq<TempName>)
    ensures Without(Without(c, a), b) == Without(c, a + b)
  {
    if |c| > 0 {
      WithoutWithout(c[1..], a, b);
      if c[0] !in a {
        var wa := Without(c, a);
        assert wa == [c[0]] + Without(c[1..], a);
        assert wa[0] == c[0] && wa[1..] == Without(c[1..], a);
        assert Without(wa, b) == (if c[0] in b then [] else [c[0]]) + Without(wa[1..], b);
        assert (c[0] in a + b) == (c[0] in b);
      } else {
        assert Without(c, a) == [] + Without(c[1..], a) == Without(c[1..], a);
        assert c[0] in a + b;
        assert Without(c, a + b) == [] + Without(c[1..], a + b) == Without(c[1..], a + b);
      }
      assert Without(c, a + b) == (if c[0] in a + b then [] else [c[0]]) + Without(c[1..], a + b);
    }
  }

  lemma {:induction false} WithoutAbsent(c: seq<TempName>, ns: seq<TempName>)
    requires forall x :: x in ns ==> x !in c
    ensures Without(c, ns) == c
  {
    if |c| > 0 {
      assert c[0] in c;
      forall x | x in ns ensures x !in c[1..] {
        assert x !in c;
      }
      WithoutAbsent(c[1..], ns);
      assert c == [c[0]] + c[1..];
    }
  }

  lemma {:induction false} UniqueNamesWithout(c: seq<TempName>, ns: seq<TempName>)
    requires UniqueNames(c)
    ensures UniqueNames(Without(c, ns))
  {
    if |c| > 0 {
      UniqueNamesWithout(c[1..], ns);
      var r := Without(c, ns);
      if c[0] !in ns {
        assert r == [c[0]] + Without(c[1..], ns);
        assert r[1..] == Without(c[1..], ns);
      } else {
        assert r == Without(c[1..], ns);
      }
    }
  }

  lemma {:induction false} UniqueNamesSnoc(c: seq<TempName>, t: TempName)
    requires UniqueNames(c)
    requires forall u :: u in c ==> u.name != t.name
    ensures UniqueNames(c + [t])
  {
    if |c| > 0 {
      assert (c + [t])[1..] == c[1..] + [t];
      assert c[0] in c;
      UniqueNamesSnoc(c[1..], t);
    } else {
      assert c + [t] == [t];
      assert [t][1..] == [];
    }
  }

  /** In a registry with unique names, a name determines the temporary. */
  lemma {:induction false} UniqueNamesInjective(c: seq<TempName>, x: TempName, y: TempName)
    requires UniqueNames(c) && x in c && y in c && x.name == y.name
    ensures x == y
  {
    if x != c[0] && y != c[0] {
      UniqueNamesInjective(c[1..], x, y);
    }
  }

  lemma {:induction false} UniqueNamesNoDuplicates(c: seq<TempName>)
    requires UniqueNames(c)
    ensures NoDuplicates(c)
  {
    if |c| > 0 {
      UniqueNamesNoDuplicates(c[1..]);
    }
  }

  lemma {:induction false} NoDuplicatesAppend<T>(a: seq<T>, b: seq<T>)
    requires NoDuplicates(a) && NoDuplicates(b)
    requires forall x :: x in a ==> x !in b
    ensures NoDuplicates(a + b)
  {
    if |a| > 0 {
      assert (a + b)[1..] == a[1..] + b;
      assert a[0] in a;
      NoDuplicatesAppend(a[1..], b);
    } else {
      assert a + b == b;
    }
  }

  /** Distinct temporaries with distinct names give distinct release statements. */
  lemma {:induction false} DecRefsNoDuplicates(s: seq<TempName>)
    requires NoDuplicates(s)
    requires forall x, y :: x in s && y in s && x.name == y.name ==> x == y
    ensures NoDuplicates(DecRefs(s))
  {
    if |s| > 0 {
      var d := DecRefs(s);
      assert d[1..] == DecRefs(s[1..]);
      DecRefsNoDuplicates(s[1..]);
      forall j | 0 <= j < |d[1..]| ensures d[1..][j] != d[0] {
        assert s[1..][j] == s[j + 1] && s[j + 1] in s && s[0] in s;
        assert s[j + 1] != s[0];
      }
    }
  }

  lemma DecRefsAppend(a: seq<TempName>, b: seq<TempName>)
    ensures DecRefs(a + b) == DecRefs(a) + DecRefs(b)
  {
  }

  lemma DecRefsCons(t: TempName, ts: seq<TempName>)
    ensures DecRefs([t] + ts) == [DecRef(t.name)] + DecRefs(ts)
  {
  }

  lemma InDecRefs(ts: seq<TempName>, t: TempName)
    requires t in ts
    ensures DecRef(t.name) in DecRefs(ts)
  {
    var i :| 0 <= i < |ts| && ts[i] == t;
    assert DecRefs(ts)[i] == DecRef(t.name);
  }

  /** Every statement of `DecRefs(ts)` releases one of `ts`. */
  lemma FromDecRefs(ts: seq<TempName>, s: CStatement)
    requires s in DecRefs(ts)
    ensures exists t :: t in ts && s == DecRef(t.name)
  {
    var i :| 0 <= i < |ts| && DecRefs(ts)[i] == s;
    assert ts[i] in ts;
  }

  /** Removing the single occurrence of a registered temporary is `list.remove`. */
  lemma {:induction false} WithoutRemoveAt(c: seq<TempName>, i: nat)
    requires UniqueNames(c) && i < |c|
    ensures Without(c, [c[i]]) == c[..i] + c[i + 1..]
  {
    if i == 0 {
      UniqueNamesNoDuplicates(c);
      assert c[0] !in c[1..];
      WithoutAbsent(c[1..], [c[0]]);
    } else {
      var tail := c[1..];
      assert tail[i - 1] == c[i] && c[i] in tail;
      assert c[0] != c[i];
      WithoutRemoveAt(tail, i - 1);
      WithoutKeepsHead(c, [c[i]]);
      SplitAround(c, i);
    }
  }

  lemma WithoutKeepsHead(c: seq<TempName>, ns: seq<TempName>)
    requires |c| > 0 && c[0] !in ns
    ensures Without(c, ns) == [c[0]] + Without(c[1..], ns)
  {
  }

  lemma SplitAround<T>(c: seq<T>, i: nat)
    requires 0 < i < |c|
    ensures c[..i] + c[i + 1..] == [c[0]] + (c[1..][..i - 1] + c[1..][i..])
  {
    assert c[1..][..i - 1] == c[1..i];
    assert c[1..][i..] == c[i + 1..];
  }
}
