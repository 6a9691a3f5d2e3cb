/** Grouping a list by a key into buckets kept in order of first appearance, as a dictionary of lists does. */
module Grouping {

  function Members<T>(s: seq<T>, key: T -> nat, k: nat): (m: seq<T>)
    ensures forall i :: 0 <= i < |m| ==> key(m[i]) == k
  {
    if s == [] then []
    else
      var rest := Members(s[..|s| - 1], key, k);
      if key(s[|s| - 1]) == k then rest + [s[|s| - 1]] else rest
  }

  function Keys<T>(s: seq<T>, key: T -> nat): seq<nat> {
    if s == [] then []
    else
      var rest := Keys(s[..|s| - 1], key);
      var k := key(s[|s| - 1]);
      if k in rest then rest else rest + [k]
  }

  function Total<T>(s: seq<T>, f: T -> real): real {
    if s == [] then 0.0 else Total(s[..|s| - 1], f) + f(s[|s| - 1])
  }

  predicate Distinct(keys: seq<nat>) {
    forall i, j :: 0 <= i < j < |keys| ==> keys[i] != keys[j]
  }

  lemma {:induction false} KeysAre<T>(s: seq<T>, key: T -> nat)
    ensures Distinct(Keys(s, key))
    ensures forall i :: 0 <= i < |s| ==> key(s[i]) in Keys(s, key)
    ensures forall k :: k in Keys(s, key) <==> Members(s, key, k) != []
  {
    hide Members;
    if s == [] {
      assert forall k :: Members(s, key, k) == [] by { NoMembers(key); }
    } else {
      var init, x := s[..|s| - 1], s[|s| - 1];
      KeysAre(init, key);
      var before, after := Keys(init, key), Keys(s, key);
      forall k
        ensures k in after <==> Members(s, key, k) != []
      {
        assert k in after <==> k in before || k == key(x);
        MembersStep(s, key, k);
      }
      forall i | 0 <= i < |s|
        ensures key(s[i]) in after
      {
        assert i < |init| ==> s[i] == init[i];
      }
    }
  }

  lemma NoMembers<T>(key: T -> nat)
    ensures forall k :: Members([], key, k) == []
  {
  }

  lemma MembersStep<T>(s: seq<T>, key: T -> nat, k: nat)
    requires s != []
    ensures Members(s, key, k) != [] <==> Members(s[..|s| - 1], key, k) != [] || k == key(s[|s| - 1])
  {
  }

  lemma {:induction false} TotalBump(keys: seq<nat>, f: nat -> real, g: nat -> real, k: nat, d: real)
    requires Distinct(keys) && forall i :: 0 <= i < |keys| ==>
        g(keys[i]) == f(keys[i]) + if keys[i] == k then d else 0.0
    ensures Total(keys, g) == Total(keys, f) + if k in keys then d else 0.0
  {
    if keys != [] {
      var n := |keys| - 1;
      TotalBump(keys[..n], f, g, k, d);
      assert k in keys <==> k in keys[..n] || k == keys[n];
      assert k == keys[n] ==> k !in keys[..n];
    }
  }

  function GroupTotal<T>(s: seq<T>, key: T -> nat, f: T -> real): nat -> real {
    (k: nat) => Total(Members(s, key, k), f)
  }

  /** Summing group by group is summing everything. */
  lemma {:induction false} GroupsSum<T>(s: seq<T>, key: T -> nat, f: T -> real)
    ensures Total(Keys(s, key), GroupTotal(s, key, f)) == Total(s, f)
  {
    if s != [] {
      var init, x := s[..|s| - 1], s[|s| - 1];
      GroupsSum(init, key, f);
      KeysAre(init, key);
      var keys := Keys(init, key);
      forall i | 0 <= i < |keys|
        ensures GroupTotal(s, key, f)(keys[i]) ==
                  GroupTotal(init, key, f)(keys[i]) + if keys[i] == key(x) then f(x) else 0.0
      {
        GroupStep(s, key, f, keys[i]);
      }
      TotalBump(keys, GroupTotal(init, key, f), GroupTotal(s, key, f), key(x), f(x));
      if key(x) !in keys {
        GroupStep(s, key, f, key(x));
        assert Members(init, key, key(x)) == [];
        assert Keys(s, key)[..|keys|] == keys;
      }
    }
  }

  lemma GroupStep<T>(s: seq<T>, key: T -> nat, f: T -> real, k: nat)
    requires s != []
    ensures GroupTotal(s, key, f)(k) ==
              GroupTotal(s[..|s| - 1], key, f)(k) + if k == key(s[|s| - 1]) then f(s[|s| - 1]) else 0.0
  {
    var init, x := s[..|s| - 1], s[|s| - 1];
    if key(x) == k {
      assert Members(s, key, k)[..|Members(init, key, k)|] == Members(init, key, k);
    }
  }

  lemma {:induction false} TotalConstant<T>(s: seq<T>, f: T -> real, c: real)
    requires forall i :: 0 <= i < |s| ==> f(s[i]) == c
    ensures Total(s, f) == |s| as real * c
  {
    if s != [] {
      TotalConstant(s[..|s| - 1], f, c);
      assert (|s| - 1) as real * c + c == |s| as real * c;
    }
  }

  lemma {:induction false} TotalBounds<T>(s: seq<T>, f: T -> real, g: T -> real)
    requires forall i :: 0 <= i < |s| ==> f(s[i]) <= g(s[i])
    ensures Total(s, f) <= Total(s, g)
  {
    if s != [] {
      TotalBounds(s[..|s| - 1], f, g);
    }
  }

  lemma {:induction false} TotalConcat<T>(a: seq<T>, b: seq<T>, f: T -> real)
    ensures Total(a + b, f) == Total(a, f) + Total(b, f)
  {
    if b == [] {
      assert a + b == a;
    } else {
      assert (a + b)[..|a + b| - 1] == a + b[..|b| - 1];
      TotalConcat(a, b[..|b| - 1], f);
    }
  }

  lemma TotalSame<T>(s: seq<T>, f: T -> real, g: T -> real)
    requires forall i :: 0 <= i < |s| ==> f(s[i]) == g(s[i])
    ensures Total(s, f) == Total(s, g)
  {
    TotalBounds(s, f, g);
    TotalBounds(s, g, f);
  }

  function Without(f: nat -> real, k: nat): nat -> real {
    (i: nat) => if i == k then 0.0 else f(i)
  }

  /** Two lists of distinct keys have the same total when what only one of them holds counts nothing: neither the order
      nor the idle keys matter. */
  lemma {:induction false} TotalElsewhere(a: seq<nat>, b: seq<nat>, f: nat -> real)
    requires Distinct(a) && Distinct(b) && forall k :: (k in a) != (k in b) ==> f(k) == 0.0
    ensures Total(a, f) == Total(b, f)
  {
    if a == [] {
      forall i | 0 <= i < |b|
        ensures f(b[i]) == 0.0
      {
        assert b[i] in b;
      }
      TotalConstant(b, f, 0.0);
    } else {
      var n := |a| - 1;
      var k, g := a[n], Without(f, a[n]);
      forall j
        ensures j in a <==> j in a[..n] || j == k
      {
        LastOf(a, j);
      }
      assert k !in a[..n];
      TotalElsewhere(a[..n], b, g);
      TotalSame(a[..n], f, g);
      TotalBump(b, g, f, k, f(k));
    }
  }

  lemma LastOf<T>(a: seq<T>, j: T)
    requires a != []
    ensures j in a <==> j in a[..|a| - 1] || j == a[|a| - 1]
  {
    assert a == a[..|a| - 1] + [a[|a| - 1]];
  }

  lemma SameLength(a: seq<nat>, b: seq<nat>)
    requires Distinct(a) && Distinct(b) && forall k :: k in a <==> k in b
    ensures |a| == |b|
  {
    var one := (k: nat) => 1.0;
    TotalElsewhere(a, b, one);
    TotalConstant(a, one, 1.0);
    TotalConstant(b, one, 1.0);
  }

  lemma {:induction false} KeysFit<T>(s: seq<T>, key: T -> nat)
    ensures |Keys(s, key)| <= |s|
  {
    if s != [] { KeysFit(s[..|s| - 1], key); }
  }

  lemma {:induction false} MembersConcat<T>(a: seq<T>, b: seq<T>, key: T -> nat, k: nat)
    ensures Members(a + b, key, k) == Members(a, key, k) + Members(b, key, k)
  {
    if b == [] {
      assert a + b == a;
    } else {
      assert (a + b)[..|a + b| - 1] == a + b[..|b| - 1];
      MembersConcat(a, b[..|b| - 1], key, k);
    }
  }

  /** The members of a bucket of one grouping in a bucket of another: either may be taken first. */
  lemma {:induction false} MembersTwice<T>(s: seq<T>, key: T -> nat, k: nat, other: T -> nat, j: nat)
    ensures Members(Members(s, key, k), other, j) == Members(Members(s, other, j), key, k)
  {
    if s != [] {
      var init, x := s[..|s| - 1], s[|s| - 1];
      MembersTwice(init, key, k, other, j);
      MembersConcat(Members(init, key, k), [x], other, j);
      MembersConcat(Members(init, other, j), [x], key, k);
      OneMember(x, key, k);
      OneMember(x, other, j);
    }
  }

  lemma OneMember<T>(x: T, key: T -> nat, k: nat)
    ensures Members([x], key, k) == if key(x) == k then [x] else []
  {
    assert [x][..0] == [];
  }

  // ---------- comprehensions ----------

  /** `[x for x in s if p(x)]` */
  function Only<T>(s: seq<T>, p: T -> bool): (r: seq<T>)
    ensures |r| <= |s| && forall i :: 0 <= i < |r| ==> p(r[i]) && r[i] in s
    ensures forall i :: 0 <= i < |s| && p(s[i]) ==> s[i] in r
  {
    if s == [] then []
    else
      var rest := Only(s[..|s| - 1], p);
      if p(s[|s| - 1]) then rest + [s[|s| - 1]] else rest
  }

  /** `[g(x) for x in s]` */
  function Mapped<T, U>(s: seq<T>, g: T -> U): (r: seq<U>)
    ensures |r| == |s| && forall i :: 0 <= i < |s| ==> r[i] == g(s[i])
  {
    if s == [] then [] else Mapped(s[..|s| - 1], g) + [g(s[|s| - 1])]
  }

  lemma {:induction false} OnlyConcat<T>(a: seq<T>, b: seq<T>, p: T -> bool)
    ensures Only(a + b, p) == Only(a, p) + Only(b, p)
  {
    if b == [] {
      assert a + b == a;
    } else {
      assert (a + b)[..|a + b| - 1] == a + b[..|b| - 1];
      OnlyConcat(a, b[..|b| - 1], p);
    }
  }

  lemma OnlyLast<T>(s: seq<T>, last: T, p: T -> bool)
    ensures Only(s + [last], p) == Only(s, p) + if p(last) then [last] else []
  {
    assert (s + [last])[..|s|] == s;
  }

  lemma MappedConcat<T, U>(a: seq<T>, b: seq<T>, g: T -> U)
    ensures Mapped(a + b, g) == Mapped(a, g) + Mapped(b, g)
  {
  }

  // ---------- replication ----------

  function Copies<T>(s: seq<T>, times: nat): seq<T> {
    if times == 0 then [] else Copies(s, times - 1) + s
  }

  lemma {:induction false} CopiesLength<T>(s: seq<T>, times: nat)
    ensures |Copies(s, times)| == times * |s|
    ensures times > 0 ==> (Copies(s, times) == [] <==> s == [])
  {
    if times > 0 {
      CopiesLength(s, times - 1);
      assert times * |s| == (times - 1) * |s| + |s|;
    }
  }

  lemma {:induction false} MembersCopies<T>(s: seq<T>, times: nat, key: T -> nat, k: nat)
    ensures Members(Copies(s, times), key, k) == Copies(Members(s, key, k), times)
  {
    if times > 0 {
      MembersCopies(s, times - 1, key, k);
      MembersConcat(Copies(s, times - 1), s, key, k);
    }
  }

  lemma {:induction false} TotalCopies<T>(s: seq<T>, times: nat, f: T -> real)
    ensures Total(Copies(s, times), f) == times as real * Total(s, f)
  {
    if times > 0 {
      TotalCopies(s, times - 1, f);
      TotalConcat(Copies(s, times - 1), s, f);
      assert times as real * Total(s, f) == (times - 1) as real * Total(s, f) + Total(s, f);
    }
  }

  lemma {:induction false} OnlyCopies<T>(s: seq<T>, times: nat, p: T -> bool)
    ensures Only(Copies(s, times), p) == Copies(Only(s, p), times)
  {
    if times > 0 {
      OnlyCopies(s, times - 1, p);
      OnlyConcat(Copies(s, times - 1), s, p);
    }
  }

  lemma {:induction false} MappedCopies<T, U>(s: seq<T>, times: nat, g: T -> U)
    ensures Mapped(Copies(s, times), g) == Copies(Mapped(s, g), times)
  {
    if times > 0 {
      MappedCopies(s, times - 1, g);
      MappedConcat(Copies(s, times - 1), s, g);
    }
  }

  lemma {:induction false} FirstCopy<T>(s: seq<T>, times: nat)
    requires times > 0 && s != []
    ensures Copies(s, times) != [] && Copies(s, times)[0] == s[0]
  {
    if times > 1 { FirstCopy(s, times - 1); }
  }

  /** `more` holds what `s` holds, each bucket a number of times of its own, in any order of the buckets. */
  ghost predicate Replicates<T>(more: seq<T>, s: seq<T>, key: T -> nat, times: nat -> nat) {
    forall k :: times(k) > 0 && Members(more, key, k) == Copies(Members(s, key, k), times(k))
  }

  lemma SameKeys<T>(more: seq<T>, s: seq<T>, key: T -> nat, times: nat -> nat)
    requires Replicates(more, s, key, times)
    ensures forall k :: k in Keys(more, key) <==> k in Keys(s, key)
    ensures |Keys(more, key)| == |Keys(s, key)| && (more == [] <==> s == [])
  {
    hide Members, Keys, Copies;
    KeysAre(more, key);
    KeysAre(s, key);
    forall k
      ensures k in Keys(more, key) <==> k in Keys(s, key)
    {
      assert times(k) > 0 && Members(more, key, k) == Copies(Members(s, key, k), times(k));
      CopiesLength(Members(s, key, k), times(k));
    }
    SameLength(Keys(more, key), Keys(s, key));
    NoKeys(more, key);
    NoKeys(s, key);
  }

  lemma NoKeys<T>(s: seq<T>, key: T -> nat)
    ensures s == [] <==> Keys(s, key) == []
  {
  }

  function Bucket<T>(groups: map<nat, seq<T>>, k: nat): seq<T> {
    if k in groups then groups[k] else []
  }

  /** `for item in items: groups[key(item)].append(item)` on a dictionary of lists. */
  method GroupBy<T>(s: seq<T>, key: T -> nat) returns (order: seq<nat>, groups: map<nat, seq<T>>)
    ensures order == Keys(s, key)
    ensures forall k :: Bucket(groups, k) == Members(s, key, k)
    ensures forall k :: k in groups <==> k in order
  {
    order, groups := [], map[];
    for i := 0 to |s|
      invariant order == Keys(s[..i], key)
      invariant forall k :: Bucket(groups, k) == Members(s[..i], key, k)
      invariant forall k :: k in groups <==> k in order
    {
      assert s[..i + 1][..i] == s[..i];
      var k := key(s[i]);
      if k !in groups {
        order := order + [k];
      }
      groups := groups[k := Bucket(groups, k) + [s[i]]];
    }
    assert s[..|s|] == s;
  }
}
