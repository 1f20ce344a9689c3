/** Python's `OrderedDict` as a value: the insertion order and the mapping. */
module OrderedDicts {
  /** `s` without `k`. */
  function Without(s: seq<string>, k: string): seq<string> {
    if s == [] then [] else if s[0] == k then Without(s[1..], k) else [s[0]] + Without(s[1..], k)
  }

  predicate Distinct(s: seq<string>) {
    forall i, j :: 0 <= i < j < |s| ==> s[i] != s[j]
  }

  datatype OrderedDict<V> = OrderedDict(order: seq<string>, at: map<string, V>) {
    ghost predicate Valid() {
      Distinct(order) && forall k :: k in order <==> k in at
    }

    /** `d[k] = v`: a present key keeps its place. */
    function Put(k: string, v: V): OrderedDict<V> {
      OrderedDict(if k in at then order else order + [k], at[k := v])
    }

    /** `d.move_to_end(k)`. */
    function Touch(k: string): OrderedDict<V> {
      OrderedDict(Without(order, k) + [k], at)
    }

    /** `del d[k]`. */
    function Remove(k: string): OrderedDict<V> {
      OrderedDict(Without(order, k), at - {k})
    }

    /** `d.popitem(last=False)`. */
    function PopOldest(): OrderedDict<V>
      requires order != []
    {
      OrderedDict(order[1..], at - {order[0]})
    }
  }

  function Empty<V>(): OrderedDict<V> {
    OrderedDict([], map[])
  }

  lemma {:induction false} WithoutFacts(s: seq<string>, k: string)
    ensures k !in Without(s, k)
    ensures forall x :: x in Without(s, k) <==> x in s && x != k
    ensures Distinct(s) ==> Distinct(Without(s, k))
    ensures k !in s ==> Without(s, k) == s
    ensures |Without(s, k)| <= |s|
  {
    if s != [] {
      WithoutFacts(s[1..], k);
      assert s == [s[0]] + s[1..];
      if Distinct(s) {
        assert forall i :: 0 <= i < |s[1..]| ==> s[1..][i] == s[i + 1];
        assert s[0] !in s[1..];
        assert s[0] !in Without(s[1..], k);
      }
    }
  }

  lemma {:induction false} WithoutConcat(s: seq<string>, t: seq<string>, k: string)
    ensures Without(s + t, k) == Without(s, k) + Without(t, k)
  {
    if s == [] {
      assert s + t == t;
    } else {
      assert (s + t)[1..] == s[1..] + t;
      WithoutConcat(s[1..], t, k);
    }
  }

  /** In a sequence without repeats, removing a present key removes one place. */
  lemma {:induction false} WithoutLength(s: seq<string>, k: string)
    requires Distinct(s)
    ensures |Without(s, k)| == if k in s then |s| - 1 else |s|
  {
    if s != [] {
      if s[0] == k {
        assert k !in s[1..];
        WithoutFacts(s[1..], k);
      } else {
        WithoutLength(s[1..], k);
      }
      assert s == [s[0]] + s[1..];
    }
  }

  lemma TouchValid<V>(d: OrderedDict<V>, k: string)
    requires d.Valid() && k in d.at
    ensures d.Touch(k).Valid() && |d.Touch(k).order| == |d.order|
  {
    WithoutFacts(d.order, k);
    WithoutLength(d.order, k);
  }

  lemma RemoveValid<V>(d: OrderedDict<V>, k: string)
    requires d.Valid()
    ensures d.Remove(k).Valid()
  {
    WithoutFacts(d.order, k);
  }

  lemma PutValid<V>(d: OrderedDict<V>, k: string, v: V)
    requires d.Valid()
    ensures d.Put(k, v).Valid()
  {
  }

  /** `s` without any of `gone`. */
  function Minus(s: seq<string>, gone: seq<string>): seq<string> {
    if gone == [] then s else Without(Minus(s, gone[..|gone| - 1]), gone[|gone| - 1])
  }
}
