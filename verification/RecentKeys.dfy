/** Traces of keys by recency of use. */
module RecentKeys {
  import opened OrderedDicts

  function LastN<T>(s: seq<T>, n: nat): seq<T> {
    if |s| <= n then s else s[|s| - n..]
  }

  lemma LastNTail<T>(s: seq<T>, n: nat)
    requires |s| > n
    ensures LastN(s[1..], n) == LastN(s, n)
  {
  }

  /** The distinct keys of a trace, least recently used first. */
  function Recency(trace: seq<string>): seq<string> {
    if trace == [] then []
    else
      var k := trace[|trace| - 1];
      Without(Recency(trace[..|trace| - 1]), k) + [k]
  }

  function LastUse(trace: seq<string>, k: string): int {
    if trace == [] then -1 else if trace[|trace| - 1] == k then |trace| - 1 else LastUse(trace[..|trace| - 1], k)
  }

  lemma {:induction false} LastUseBounds(trace: seq<string>, k: string)
    ensures -1 <= LastUse(trace, k) < |trace|
    ensures k in trace <==> LastUse(trace, k) >= 0
  {
    if trace != [] {
      LastUseBounds(trace[..|trace| - 1], k);
      assert trace == trace[..|trace| - 1] + [trace[|trace| - 1]];
    }
  }

  lemma {:induction false} WithoutOrder(s: seq<string>, k: string, trace: seq<string>)
    requires forall i, j :: 0 <= i < j < |s| ==> LastUse(trace, s[i]) < LastUse(trace, s[j])
    ensures var r := Without(s, k);
      forall i, j :: 0 <= i < j < |r| ==> LastUse(trace, r[i]) < LastUse(trace, r[j])
  {
    if s != [] {
      WithoutOrder(s[1..], k, trace);
      WithoutFacts(s[1..], k);
      var r := Without(s[1..], k);
      forall j | 0 <= j < |r| ensures LastUse(trace, s[0]) < LastUse(trace, r[j]) {
        assert r[j] in s[1..];
      }
    }
  }

  /** `Recency` lists exactly the keys used, each once, in order of last use. */
  lemma {:induction false} RecencyMeans(trace: seq<string>)
    ensures Distinct(Recency(trace))
    ensures forall k :: k in Recency(trace) <==> k in trace
    ensures forall i, j :: 0 <= i < j < |Recency(trace)| ==>
              LastUse(trace, Recency(trace)[i]) < LastUse(trace, Recency(trace)[j])
  {
    if trace != [] {
      var before, k := trace[..|trace| - 1], trace[|trace| - 1];
      RecencyMeans(before);
      WithoutFacts(Recency(before), k);
      WithoutOrder(Recency(before), k, before);
      assert trace == before + [k];
      var r := Without(Recency(before), k);
      assert Recency(trace) == r + [k];
      forall i | 0 <= i < |r|
        ensures LastUse(trace, r[i]) == LastUse(before, r[i]) && LastUse(before, r[i]) < |before|
      {
        assert r[i] in r;
        LastUseBounds(before, r[i]);
      }
    }
  }

  lemma KnownKeyMoves(cap: nat, p: seq<string>, s: seq<string>, key: string)
    requires Distinct(p + s) && key in s && (|s| == cap || (|s| < cap && p == []))
    ensures Without(s, key) + [key] == LastN(Without(p, key) + Without(s, key) + [key], cap)
  {
    var j :| 0 <= j < |s| && s[j] == key;
    forall i | 0 <= i < |p| ensures p[i] != key {
      assert (p + s)[i] == p[i] && (p + s)[|p| + j] == s[j];
    }
    WithoutFacts(p, key);
    assert Distinct(s) by {
      forall a, b | 0 <= a < b < |s| ensures s[a] != s[b] {
        assert (p + s)[|p| + a] == s[a] && (p + s)[|p| + b] == s[b];
      }
    }
    WithoutLength(s, key);
    assert Without(p, key) + Without(s, key) + [key] == p + (Without(s, key) + [key]);
  }

  lemma LastNOfConcat<T>(a: seq<T>, b: seq<T>)
    ensures LastN(a + b, |b|) == b
  {
  }

  lemma LastNOfLastN<T>(s: seq<T>, n: nat, m: nat)
    ensures var r := LastN(LastN(s, n), m); r == LastN(s, |r|) && |r| <= m
  {
  }

  lemma NewKeyMoves(cap: nat, p: seq<string>, s: seq<string>, key: string)
    requires cap >= 1 && key !in s && (|s| == cap || (|s| < cap && p == []))
    ensures LastN(s + [key], cap) == LastN(Without(p, key) + Without(s, key) + [key], cap)
  {
    WithoutFacts(s, key);
    var q := Without(p, key);
    if |s| == cap {
      var kept := s[1..] + [key];
      assert s + [key] == s[..1] + kept;
      assert q + s + [key] == (q + s[..1]) + kept;
      LastNOfConcat(s[..1], kept);
      LastNOfConcat(q + s[..1], kept);
    } else {
      assert q == [];
      assert q + s == s;
    }
  }

  /** Using a key moves the last `cap` keys of a recency list as it moves the list. */
  lemma UseMoves(cap: nat, s: seq<string>, recency: seq<string>, key: string)
    requires cap >= 1 && Distinct(recency) && s == LastN(recency, cap)
    ensures LastN(Without(recency, key) + [key], cap)
         == if key in s then Without(s, key) + [key] else LastN(s + [key], cap)
  {
    var p := recency[..|recency| - |s|];
    assert recency == p + s;
    WithoutConcat(p, s, key);
    if key in s {
      KnownKeyMoves(cap, p, s, key);
    } else {
      NewKeyMoves(cap, p, s, key);
    }
  }
}
