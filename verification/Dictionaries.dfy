// The recursive merge of dictionaries that sync responses and key queries are summed with
// (MatrixSDK/Utils/Categories/NSDictionary.swift, NSArray.swift).
module Dictionaries {

  /** A Foundation value: a dictionary, an array, or anything else. */
  datatype Value<K, A> =
    | Dict(entries: map<K, Value<K, A>>)
    | Array(items: seq<Value<K, A>>)
    | Atom(atom: A)

  /** What `+` leaves under a key that both operands have. */
  function MergeValue<K, A>(l: Value<K, A>, r: Value<K, A>): Value<K, A>
    decreases r
  {
    match (l, r)
    case (Dict(a), Dict(b)) =>
      Dict(a + map k | k in b :: if k in a then MergeValue(a[k], b[k]) else b[k])
    case (Array(a), Array(b)) => Array(a + b)
    case _ => r
  }

  /** `NSDictionary.+`: starts from the left operand and folds the right one in, key by key, in no fixed order. */
  method Plus<K(==), A>(lhs: Value<K, A>, rhs: Value<K, A>) returns (sum: Value<K, A>)
    requires lhs.Dict? && rhs.Dict?
    ensures sum == MergeValue(lhs, rhs)
    decreases rhs, 0
  {
    var dictionary := lhs.entries;
    var keys := rhs.entries.Keys;
    ghost var done: set<K> := {};
    while keys != {}
      invariant done + keys == rhs.entries.Keys && done !! keys
      invariant dictionary.Keys == lhs.entries.Keys + done
      invariant forall k | k in dictionary && k !in done :: dictionary[k] == lhs.entries[k]
      invariant forall k | k in done ::
                  dictionary[k] == if k in lhs.entries then MergeValue(lhs.entries[k], rhs.entries[k])
                    else rhs.entries[k]
      decreases keys
    {
      var key :| key in keys;
      var value := rhs.entries[key];
      if key in dictionary {
        value := PlusEntry(dictionary[key], value);
      }
      dictionary := dictionary[key := value];
      keys, done := keys - {key}, done + {key};
    }
    assert dictionary == MergeValue(lhs, rhs).entries;
    return Dict(dictionary);
  }

  /** The switch of `NSDictionary.+` over a key that both operands have. */
  method PlusEntry<K(==), A>(valueL: Value<K, A>, valueR: Value<K, A>) returns (value: Value<K, A>)
    ensures value == MergeValue(valueL, valueR)
    decreases valueR, 1
  {
    match (valueL, valueR) {
      case (Dict(_), Dict(_)) => value := Plus(valueL, valueR);
      case (Array(a), Array(b)) => value := Array(a + b);
      case _ => value := valueR;
    }
  }

  /** A dictionary is the sum of two others if it is under every key. */
  lemma SumByKey<K, A>(a: map<K, Value<K, A>>, b: map<K, Value<K, A>>, sum: map<K, Value<K, A>>)
    requires sum.Keys == a.Keys + b.Keys
    requires forall k | k in sum :: sum[k] == if k !in b then a[k] else if k !in a then b[k] else MergeValue(a[k], b[k])
    ensures MergeValue(Dict(a), Dict(b)) == Dict(sum)
  {
    assert MergeValue(Dict(a), Dict(b)).entries == sum;
  }

  // The empty dictionary is neutral on both sides.
  lemma EmptyIsNeutral<K, A>(v: Value<K, A>)
    requires v.Dict?
    ensures MergeValue(Dict(map[]), v) == v && MergeValue(v, Dict(map[])) == v
  {
    assert MergeValue(Dict(map[]), v).entries == v.entries;
    assert MergeValue(v, Dict(map[])).entries == v.entries;
  }

  /** Nothing of `x` survives when `z` is added to it: every path of `x` ends in `z`, and no array contributes. */
  predicate Absorbed<K, A>(x: Value<K, A>, z: Value<K, A>)
    decreases x
  {
    match (x, z)
    case (Dict(a), Dict(c)) => a.Keys <= c.Keys && forall k | k in a :: Absorbed(a[k], c[k])
    case (Array(a), Array(_)) => a == []
    case _ => true
  }

  lemma {:induction false} AbsorbedExactly<K, A>(x: Value<K, A>, z: Value<K, A>)
    ensures MergeValue(x, z) == z <==> Absorbed(x, z)
    decreases x
  {
    match (x, z) {
      case (Dict(a), Dict(c)) =>
        forall k | k in a && k in c ensures MergeValue(a[k], c[k]) == c[k] <==> Absorbed(a[k], c[k]) {
          AbsorbedExactly(a[k], c[k]);
        }
        var m := MergeValue(x, z).entries;
        if Absorbed(x, z) {
          assert m == c;
        }
        if m == c {
          forall k | k in a ensures k in c && Absorbed(a[k], c[k]) {
            assert k in m;
          }
        }
      case (Array(a), Array(c)) =>
        if a + c == c {
          assert |a + c| == |c|;
        }
        if a == [] {
          assert a + c == c;
        }
      case _ =>
    }
  }

  /** Where grouping cannot be seen: no value that would merge is hidden behind a middle value of another kind. */
  predicate Regroupable<K, A>(x: Value<K, A>, y: Value<K, A>, z: Value<K, A>)
    decreases x
  {
    match (x, z)
    case (Dict(a), Dict(c)) =>
      if y.Dict?
      then forall k | k in a && k in y.entries && k in c :: Regroupable(a[k], y.entries[k], c[k])
      else Absorbed(x, z)
    case (Array(a), Array(_)) => y.Array? || a == []
    case _ => true
  }

  /** `+` is associative exactly on regroupable values, at every depth. */
  lemma {:induction false} AssociativeExactly<K, A>(x: Value<K, A>, y: Value<K, A>, z: Value<K, A>)
    ensures MergeValue(MergeValue(x, y), z) == MergeValue(x, MergeValue(y, z)) <==> Regroupable(x, y, z)
    decreases x
  {
    if x.Dict? && y.Dict? && z.Dict? {
      AssociativeOnDicts(x, y, z);
    } else {
      AbsorbedExactly(x, z);
      if x.Array? && y.Array? && z.Array? {
        assert (x.items + y.items) + z.items == x.items + (y.items + z.items);
      }
    }
  }

  lemma {:induction false} AssociativeOnDicts<K, A>(x: Value<K, A>, y: Value<K, A>, z: Value<K, A>)
    requires x.Dict? && y.Dict? && z.Dict?
    ensures MergeValue(MergeValue(x, y), z) == MergeValue(x, MergeValue(y, z)) <==> Regroupable(x, y, z)
    decreases x, 0
  {
    var left := MergeValue(MergeValue(x, y), z).entries;
    var right := MergeValue(x, MergeValue(y, z)).entries;
    forall k | k in x.entries && k in y.entries && k in z.entries
      ensures left[k] == right[k] <==> Regroupable(x.entries[k], y.entries[k], z.entries[k])
    {
      AssociativeExactly(x.entries[k], y.entries[k], z.entries[k]);
    }
    assert left.Keys == right.Keys;
    forall k | k in left && !(k in x.entries && k in y.entries && k in z.entries)
      ensures left[k] == right[k] {}
    if Regroupable(x, y, z) {
      assert left == right;
    }
    if left == right {
      forall k | k in x.entries && k in y.entries && k in z.entries
        ensures Regroupable(x.entries[k], y.entries[k], z.entries[k])
      {
        assert left[k] == right[k];
      }
    }
  }

  function Under<A>(v: Value<string, A>): Value<string, A> {
    Dict(map["k" := v])
  }

  lemma SumUnder<A>(a: Value<string, A>, b: Value<string, A>)
    ensures MergeValue(Under(a), Under(b)) == Under(MergeValue(a, b))
  {
    SumByKey(Under(a).entries, Under(b).entries, Under(MergeValue(a, b)).entries);
    hide MergeValue;
  }

  /** A concrete case: an array, then a number, then an array under one key. Summed from the left the first array is
      gone, summed from the right it is in front. */
  lemma ChangeOfKindShowsGrouping(one: Value<string, int>, two: Value<string, int>)
    ensures var x, y, z := Under(Array([one])), Under(Atom(0)), Under(Array([two]));
            && MergeValue(MergeValue(x, y), z) == Under(Array([two]))
            && MergeValue(x, MergeValue(y, z)) == Under(Array([one, two]))
  {
    var a, b, c: Value<string, int> := Array([one]), Atom(0), Array([two]);
    SumUnder(a, b);
    SumUnder(b, c);
    SumUnder(a, c);
    assert MergeValue(a, b) == b && MergeValue(b, c) == c && MergeValue(a, c) == Array([one, two]) by {
      assert [one] + [two] == [one, two];
    }
    hide MergeValue, Under;
  }

  /** The two sides say the same wherever they both speak; arrays must also commute as sequences. */
  predicate Agree<K, A(==)>(x: Value<K, A>, y: Value<K, A>)
    decreases x
  {
    match (x, y)
    case (Dict(a), Dict(b)) => forall k | k in a && k in b :: Agree(a[k], b[k])
    case (Array(a), Array(b)) => a + b == b + a
    case _ => x == y
  }

  /** `+` is commutative exactly on operands that agree. */
  lemma {:induction false} CommutativeExactly<K, A>(x: Value<K, A>, y: Value<K, A>)
    ensures MergeValue(x, y) == MergeValue(y, x) <==> Agree(x, y)
    decreases x
  {
    match (x, y) {
      case (Dict(a), Dict(b)) =>
        var xy, yx := MergeValue(x, y).entries, MergeValue(y, x).entries;
        assert xy.Keys == yx.Keys;
        forall k | k in a && k in b ensures xy[k] == yx[k] <==> Agree(a[k], b[k]) {
          CommutativeExactly(a[k], b[k]);
        }
        if Agree(x, y) {
          assert xy == yx;
        }
        if xy == yx {
          forall k | k in a && k in b ensures Agree(a[k], b[k]) {
            assert xy[k] == yx[k];
          }
        }
      case _ =>
    }
  }
}
