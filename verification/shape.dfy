/**
 * The coarse type tag `notifyOnAllChanges` uses: two values are "the same kind" when their
 * sorted top-level key lists are equal (`compareKeys` in the cache). Comparing the two sorted
 * lists with `JSON.stringify` is taken to be list equality, since that encoding is injective on
 * lists of strings.
 */
module Shape {
  import opened Wrappers
  import opened JsValues
  import opened KeyOrder

  /** `compareKeys(a, b)`: None when `Object.keys` throws on either side. */
  function CompareKeys(a: JsValue, b: JsValue): (r: Option<bool>)
    ensures r.None? <==> !HasKeys(a) || !HasKeys(b)
  {
    match (ObjectKeys(a), ObjectKeys(b))
    case (Some(ka), Some(kb)) => Some(SortStrings(ka) == SortStrings(kb))
    case _ => None
  }

  /**
   * When neither side throws, `compareKeys` holds exactly when the two values own the same
   * keys, counted with multiplicity, in whatever order `Object.keys` lists them.
   */
  lemma CompareKeysMeaning(a: JsValue, b: JsValue)
    requires HasKeys(a) && HasKeys(b)
    ensures CompareKeys(a, b) == Some(multiset(ObjectKeys(a).value) == multiset(ObjectKeys(b).value))
  {
    SortEqualIffSameKeys(ObjectKeys(a).value, ObjectKeys(b).value);
  }

  /** The shape test is an equivalence on every value `Object.keys` accepts. */
  lemma ShapeIsEquivalence(a: JsValue, b: JsValue, c: JsValue)
    requires HasKeys(a) && HasKeys(b) && HasKeys(c)
    ensures CompareKeys(a, a) == Some(true)
    ensures CompareKeys(a, b) == CompareKeys(b, a)
    ensures CompareKeys(a, b) == Some(true) && CompareKeys(b, c) == Some(true) ==> CompareKeys(a, c) == Some(true)
  {
    CompareKeysMeaning(a, a);
    CompareKeysMeaning(a, b);
    CompareKeysMeaning(b, a);
    CompareKeysMeaning(b, c);
    CompareKeysMeaning(a, c);
  }

  /** Reordering an object's properties never changes its shape. */
  lemma {:induction false} KeyOrderIrrelevant(ps: seq<Property>, qs: seq<Property>)
    requires multiset(ps) == multiset(qs)
    ensures CompareKeys(Obj(ps), Obj(qs)) == Some(true)
  {
    NamesPermutation(ps, qs);
    CompareKeysMeaning(Obj(ps), Obj(qs));
  }

  lemma {:induction false} NamesPermutation(ps: seq<Property>, qs: seq<Property>)
    requires multiset(ps) == multiset(qs)
    ensures multiset(Names(ps)) == multiset(Names(qs))
    decreases |ps|
  {
    if |ps| == 0 {
      assert |qs| == |multiset(qs)| == 0;
    } else {
      var j := IndexOf(qs, ps[0]);
      TailPermutation(ps, qs, j);
      NamesPermutation(ps[1..], qs[..j] + qs[j + 1..]);
      PutBackName(ps, qs, j);
    }
  }

  /** Matching the first property of `ps` with the one at `j` in `qs` leaves permuted tails. */
  lemma TailPermutation(ps: seq<Property>, qs: seq<Property>, j: nat)
    requires multiset(ps) == multiset(qs)
    requires 0 < |ps| && j < |qs| && qs[j] == ps[0]
    ensures multiset(ps[1..]) == multiset(qs[..j] + qs[j + 1..])
  {
    var t, rest := ps[1..], qs[..j] + qs[j + 1..];
    assert multiset(ps) == multiset{ps[0]} + multiset(t) by {
      assert ps == [ps[0]] + t;
    }
    RemoveAt(qs, j);
    assert multiset(t) == multiset(ps) - multiset{ps[0]};
  }

  /** Putting the matched property back adds the same name on both sides. */
  lemma PutBackName(ps: seq<Property>, qs: seq<Property>, j: nat)
    requires 0 < |ps| && j < |qs| && qs[j] == ps[0]
    requires multiset(Names(ps[1..])) == multiset(Names(qs[..j] + qs[j + 1..]))
    ensures multiset(Names(ps)) == multiset(Names(qs))
  {
    RemoveNameAt(qs, j);
    FirstName(ps);
  }

  /** The names of a non-empty list are its first name plus the names of the rest. */
  lemma FirstName(ps: seq<Property>)
    requires 0 < |ps|
    ensures multiset(Names(ps)) == multiset{ps[0].name} + multiset(Names(ps[1..]))
  {
    assert ps == [ps[0]] + ps[1..];
    NamesAppend([ps[0]], ps[1..]);
    assert Names([ps[0]]) == [ps[0].name];
  }

  lemma IndexOf(qs: seq<Property>, p: Property) returns (j: nat)
    requires p in multiset(qs)
    ensures j < |qs| && qs[j] == p
  {
    assert p in qs;
    j :| 0 <= j < |qs| && qs[j] == p;
  }

  /** Taking out the property at `j`... */
  lemma RemoveAt(qs: seq<Property>, j: nat)
    requires j < |qs|
    ensures multiset(qs[..j] + qs[j + 1..]) == multiset(qs) - multiset{qs[j]}
  {
    assert qs == qs[..j] + [qs[j]] + qs[j + 1..];
  }

  /** ... takes out exactly its name. */
  lemma RemoveNameAt(qs: seq<Property>, j: nat)
    requires j < |qs|
    ensures multiset(Names(qs)) == multiset(Names(qs[..j] + qs[j + 1..])) + multiset{qs[j].name}
  {
    var a, b := qs[..j], qs[j + 1..];
    assert qs == a + [qs[j]] + b;
    NamesAppend(a + [qs[j]], b);
    NamesAppend(a, [qs[j]]);
    NamesAppend(a, b);
    assert Names([qs[j]]) == [qs[j].name];
  }

  /** The shape test looks at property names only, never at property values. */
  lemma ValuesIrrelevant(sample: JsValue, ps: seq<Property>, qs: seq<Property>)
    requires Names(ps) == Names(qs)
    ensures CompareKeys(sample, Obj(ps)) == CompareKeys(sample, Obj(qs))
  {
  }

  /** For real objects (no repeated names) the shape test is equality of the key sets. */
  lemma ShapeIsKeySetEquality(ps: seq<Property>, qs: seq<Property>)
    requires DistinctNames(ps) && DistinctNames(qs)
    ensures CompareKeys(Obj(ps), Obj(qs)) == Some(true) <==> KeySet(Names(ps)) == KeySet(Names(qs))
  {
    var a, b := Names(ps), Names(qs);
    assert Distinct(a) && Distinct(b);
    MultisetIffSet(a, b);
    CompareKeysMeaning(Obj(ps), Obj(qs));
  }

  lemma MultisetIffSet(a: seq<string>, b: seq<string>)
    requires Distinct(a) && Distinct(b)
    ensures multiset(a) == multiset(b) <==> KeySet(a) == KeySet(b)
  {
    DistinctCounts(a);
    DistinctCounts(b);
    if KeySet(a) == KeySet(b) {
      forall x
        ensures multiset(a)[x] == multiset(b)[x]
      {
        assert x in a <==> x in KeySet(a);
        assert x in b <==> x in KeySet(b);
      }
    }
    if multiset(a) == multiset(b) {
      forall x
        ensures x in KeySet(a) <==> x in KeySet(b)
      {
        assert x in a <==> x in multiset(a);
        assert x in b <==> x in multiset(b);
      }
    }
  }

  ghost function KeySet(s: seq<string>): set<string> {
    set x | x in s
  }

  ghost predicate Distinct(s: seq<string>) {
    forall i, j :: 0 <= i < j < |s| ==> s[i] != s[j]
  }

  lemma {:induction false} DistinctCounts(s: seq<string>)
    requires Distinct(s)
    ensures forall x :: multiset(s)[x] == if x in s then 1 else 0
    decreases |s|
  {
    if |s| > 0 {
      assert Distinct(s[1..]);
      DistinctCounts(s[1..]);
      assert s == [s[0]] + s[1..];
      assert s[0] !in s[1..];
    }
  }

  /** Strings are told apart by their JavaScript length (UTF-16 code units) only. */
  lemma StringShapes(s: string, t: string)
    ensures CompareKeys(Str(s), Str(t)) == Some(Utf16Length(s) == Utf16Length(t))
  {
    CompareKeysMeaning(Str(s), Str(t));
    if Utf16Length(s) != Utf16Length(t) {
      assert |multiset(IndexKeys(Utf16Length(s)))| != |multiset(IndexKeys(Utf16Length(t)))|;
    }
  }

  /** One character outside the basic multilingual plane has the shape of a two-letter string. */
  lemma AstralCharIsTwoUnits()
    ensures CompareKeys(Str("\U{1F600}"), Str("ab")) == Some(true)
  {
    StringShapes("\U{1F600}", "ab");
    assert Utf16Length("\U{1F600}") == 2;
    assert Utf16Length("ab") == 2 by {
      Utf16LengthBmp("ab");
    }
  }

  /** The tag is coarse: a string and an object with keys "0" and "1" are the same kind. */
  lemma StringLooksLikeIndexedObject()
    ensures CompareKeys(Str("ab"), Obj([Property("1", Num(2)), Property("0", Num(1))])) == Some(true)
  {
    var ps := [Property("1", Num(2)), Property("0", Num(1))];
    TwoLetterKeys();
    assert Names(ps) == ["1", "0"];
    assert multiset(["0", "1"]) == multiset(["1", "0"]);
    CompareKeysMeaning(Str("ab"), Obj(ps));
  }

  lemma TwoLetterKeys()
    ensures ObjectKeys(Str("ab")) == Some(["0", "1"])
  {
    assert Utf16Length("ab") == 2 by {
      Utf16LengthBmp("ab");
    }
    assert NatToString(0) == "0" && NatToString(1) == "1";
    assert IndexKeys(2) == ["0", "1"];
  }

  /** A `null` or `undefined` sample makes every comparison throw. */
  lemma NullSampleThrows(sample: JsValue, v: JsValue)
    requires sample == Null || sample == Undefined
    ensures CompareKeys(sample, v).None?
  {
  }
}
