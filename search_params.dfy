/** The get and set operations of the URLSearchParams class (section 6.2 of
    the WHATWG URL Standard) over the list of name-value pairs. */
module SearchParams {
  import opened Wrappers
  import opened FormUrlencoded

  /** Position of the first pair named name, or |q| when there is none. */
  function FirstIndex(q: Query, name: string): (i: nat)
    ensures i <= |q|
    ensures forall j :: 0 <= j < i ==> q[j].name != name
    ensures i < |q| ==> q[i].name == name
  {
    if q == [] || q[0].name == name then 0 else 1 + FirstIndex(q[1..], name)
  }

  /** get(name): the value of the first pair named name, if any. */
  function Get(q: Query, name: string): (r: Option<string>)
    ensures r.None? <==> forall p :: p in q ==> p.name != name
    ensures r.Some? ==> Param(name, r.value) in q
  {
    if q == [] then None
    else if q[0].name == name then Some(q[0].value)
    else Get(q[1..], name)
  }

  /** The pairs not named name, in their original order. */
  function Without(q: Query, name: string): (r: Query)
    ensures |r| <= |q|
  {
    if q == [] then []
    else if q[0].name == name then Without(q[1..], name)
    else [q[0]] + Without(q[1..], name)
  }

  /** Without keeps exactly the pairs of other names. */
  lemma {:induction false} WithoutMembers(q: Query, name: string)
    ensures forall p :: p in Without(q, name) <==> p in q && p.name != name
  {
    if q != [] {
      WithoutMembers(q[1..], name);
    }
  }

  /** Number of pairs named name. */
  function Count(q: Query, name: string): (n: nat)
    ensures n <= |q|
    ensures n == 0 <==> forall p :: p in q ==> p.name != name
  {
    if q == [] then 0
    else (if q[0].name == name then 1 else 0) + Count(q[1..], name)
  }

  /** set(name, value): replace the value of the first pair named name and
      remove the later ones, or append the pair when there is none. */
  function Set(q: Query, name: string, value: string): (r: Query)
    ensures Param(name, value) in r
  {
    if q == [] then [Param(name, value)]
    else if q[0].name == name then [Param(name, value)] + Without(q[1..], name)
    else [q[0]] + Set(q[1..], name, value)
  }

  /** get agrees with the first pair found by position. */
  lemma {:induction false} GetFirst(q: Query, name: string)
    ensures Get(q, name) == if FirstIndex(q, name) < |q| then Some(q[FirstIndex(q, name)].value) else None
  {
    if q != [] && q[0].name != name {
      GetFirst(q[1..], name);
    }
  }

  lemma {:induction false} WithoutAbsent(q: Query, name: string)
    requires forall p :: p in q ==> p.name != name
    ensures Without(q, name) == q
  {
    if q != [] {
      WithoutAbsent(q[1..], name);
    }
  }

  lemma {:induction false} WithoutIdempotent(q: Query, name: string)
    ensures Without(Without(q, name), name) == Without(q, name)
  {
    WithoutMembers(q, name);
    WithoutAbsent(Without(q, name), name);
  }

  /** set as the standard words it, when the name is present: the list up
      to the first pair named name, the new pair in its place, then the rest
      without that name. */
  lemma {:induction false} SetPresent(q: Query, name: string, value: string, i: nat)
    requires i == FirstIndex(q, name) && i < |q|
    ensures Set(q, name, value) == q[..i] + [Param(name, value)] + Without(q[i + 1..], name)
  {
    if q[0].name != name {
      var t, p := q[1..], Param(name, value);
      SetPresent(t, name, value, i - 1);
      assert q[..i] == [q[0]] + t[..i - 1];
      assert q[i + 1..] == t[i..];
      calc {
        Set(q, name, value);
        [q[0]] + Set(t, name, value);
        [q[0]] + (t[..i - 1] + [p] + Without(t[i..], name));
        q[..i] + [p] + Without(q[i + 1..], name);
      }
    }
  }

  /** set as the standard words it, when the name is absent: the pair is
      appended. */
  lemma {:induction false} SetAbsent(q: Query, name: string, value: string)
    requires forall p :: p in q ==> p.name != name
    ensures Set(q, name, value) == q + [Param(name, value)]
  {
    if q != [] {
      SetAbsent(q[1..], name, value);
      assert q == [q[0]] + q[1..];
    }
  }

  /** After set, get of that name returns the new value. */
  lemma {:induction false} GetSet(q: Query, name: string, value: string)
    ensures Get(Set(q, name, value), name) == Some(value)
  {
    if q != [] && q[0].name != name {
      GetSet(q[1..], name, value);
    }
  }

  /** set leaves get of every other name as it was. */
  lemma {:induction false} GetSetOther(q: Query, name: string, value: string, other: string)
    requires other != name
    ensures Get(Set(q, name, value), other) == Get(q, other)
  {
    if q == [] {
    } else if q[0].name == name {
      WithoutGet(q[1..], name, other);
    } else {
      GetSetOther(q[1..], name, value, other);
    }
  }

  lemma {:induction false} WithoutGet(q: Query, name: string, other: string)
    requires other != name
    ensures Get(Without(q, name), other) == Get(q, other)
  {
    if q != [] {
      WithoutGet(q[1..], name, other);
    }
  }

  /** After set exactly one pair has that name. */
  lemma {:induction false} CountSet(q: Query, name: string, value: string)
    ensures Count(Set(q, name, value), name) == 1
  {
    if q == [] {
    } else if q[0].name == name {
      var w := Without(q[1..], name);
      WithoutMembers(q[1..], name);
      assert Count(w, name) == 0;
      assert Set(q, name, value) == [Param(name, value)] + w;
      assert Set(q, name, value)[1..] == w;
    } else {
      CountSet(q[1..], name, value);
      assert Set(q, name, value)[1..] == Set(q[1..], name, value);
    }
  }

  /** set keeps every pair of another name, in the original order. */
  lemma {:induction false} WithoutSet(q: Query, name: string, value: string)
    ensures Without(Set(q, name, value), name) == Without(q, name)
  {
    if q == [] {
    } else if q[0].name == name {
      var w := Without(q[1..], name);
      assert Set(q, name, value)[1..] == w;
      WithoutIdempotent(q[1..], name);
    } else {
      WithoutSet(q[1..], name, value);
      assert Set(q, name, value)[1..] == Set(q[1..], name, value);
    }
  }
}
